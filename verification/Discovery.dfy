/** Batch discovery: normalization, the domain guard, in-batch deduplication and the upsert. */
module Discovery {
  import opened Wrappers
  import opened Text
  import opened Frontier
  import opened FrontierSafety

  datatype Item = Item(url: string, urlType: UrlType, depth: int, publishedAt: Option<Time>)

  datatype Normalized = Normalized(urlHash: string, domain: string)

  /** A source, with the URL normalizer and the priority score as parameters. */
  datatype Source = Source(
    id: nat, allowedDomains: seq<string>,
    normalize: string -> Option<Normalized>, priority: Item -> real)

  predicate EndsWith(s: string, suffix: string) {
    |s| >= |suffix| && s[|s| - |suffix|..] == suffix
  }

  /** The SSRF guard: the domain itself or one of its subdomains; an empty list allows everything. */
  predicate DomainAllowed(source: Source, domain: string) {
    source.allowedDomains == []
    || exists i :: 0 <= i < |source.allowedDomains|
         && (domain == source.allowedDomains[i] || EndsWith(domain, "." + source.allowedDomains[i]))
  }

  /** The domain is `allowed` or lies below it: its last labels are those of `allowed`. */
  ghost predicate IsWithin(domain: string, allowed: string) {
    var labels, suffix := Split(domain, '.'), Split(allowed, '.');
    |suffix| <= |labels| && labels[|labels| - |suffix|..] == suffix
  }

  /** The guard respects the boundaries of labels: it compares whole labels, from the end. */
  lemma GuardComparesLabels(source: Source, domain: string)
    ensures DomainAllowed(source, domain)
       <==> source.allowedDomains == []
            || exists allowed: string :: allowed in source.allowedDomains && IsWithin(domain, allowed)
  {
    forall i | 0 <= i < |source.allowedDomains|
      ensures IsWithin(domain, source.allowedDomains[i])
         <==> domain == source.allowedDomains[i] || EndsWith(domain, "." + source.allowedDomains[i])
    {
      SuffixIsLabels(domain, source.allowedDomains[i]);
    }
    hide IsWithin, EndsWith;
    if allowed: string :| allowed in source.allowedDomains && IsWithin(domain, allowed) {
      var i :| 0 <= i < |source.allowedDomains| && source.allowedDomains[i] == allowed;
      assert DomainAllowed(source, domain);
    } else if DomainAllowed(source, domain) && source.allowedDomains != [] {
      var i :| 0 <= i < |source.allowedDomains|
        && (domain == source.allowedDomains[i] || EndsWith(domain, "." + source.allowedDomains[i]));
      assert source.allowedDomains[i] in source.allowedDomains;
    }
  }

  lemma SuffixIsLabels(domain: string, allowed: string)
    ensures IsWithin(domain, allowed) <==> domain == allowed || EndsWith(domain, "." + allowed)
  {
    if EndsWith(domain, "." + allowed) {
      var prefix := domain[..|domain| - |allowed| - 1];
      assert domain == prefix + ['.'] + allowed;
      PartsAtEnd(prefix, allowed, '.');
    }
    if IsWithin(domain, allowed) && domain != allowed {
      var prefix := EndsInParts(domain, allowed, '.');
      assert domain[|prefix|..] == "." + allowed;
    }
  }

  /** A domain that merely ends in the same letters is not allowed. */
  lemma LookalikeIsRefused(source: Source, allowed: string, prefix: string)
    requires source.allowedDomains == [allowed] && prefix != "" && prefix[|prefix| - 1] != '.'
    ensures !DomainAllowed(source, prefix + allowed)
  {
    assert (prefix + allowed)[|prefix| - 1] == prefix[|prefix| - 1];
  }

  /** An item becomes a link unless its URL is malformed or outside the allowed domains. */
  function Accepted(source: Source, item: Item): Option<Link> {
    var n := source.normalize(item.url);
    if n.None? || !DomainAllowed(source, n.value.domain) then None
    else Some(Link(n.value.urlHash, n.value.domain, source.priority(item), item.urlType))
  }

  ghost predicate DistinctHashes(links: seq<Link>) {
    forall i, j :: 0 <= i < j < |links| ==> links[i].urlHash != links[j].urlHash
  }

  /** `links` are the first accepted occurrences among the first `n` items, one for each accepted hash. */
  ghost predicate AreFirstOccurrences(source: Source, items: seq<Item>, n: nat, links: seq<Link>)
    requires n <= |items|
  {
    && DistinctHashes(links)
    && (forall k: nat :: k < |links| ==> OccursFirst(source, items, n, links[k]))
    && (forall i: nat :: i < n && Accepted(source, items[i]).Some? ==>
         Mentions(links, Accepted(source, items[i]).value.urlHash))
  }

  ghost predicate IsDiscovered(source: Source, items: seq<Item>, urlHash: string) {
    exists i :: 0 <= i < |items| && Accepted(source, items[i]).Some?
      && Accepted(source, items[i]).value.urlHash == urlHash
  }

  ghost predicate OccursFirst(source: Source, items: seq<Item>, n: nat, link: Link) {
    exists i: nat :: i < n && IsFirstOccurrence(source, items, i, link)
  }

  ghost predicate IsFirstOccurrence(source: Source, items: seq<Item>, i: nat, link: Link) {
    && i < |items| && Accepted(source, items[i]) == Some(link)
    && forall j: nat :: j < i && Accepted(source, items[j]).Some? ==>
       Accepted(source, items[j]).value.urlHash != link.urlHash
  }

  /** The loop that fills the batch dictionary, keeping the first entry of each hash. */
  method Stage(source: Source, items: seq<Item>) returns (links: seq<Link>)
    ensures AreFirstOccurrences(source, items, |items|, links)
  {
    hide Accepted;
    links := [];
    for n := 0 to |items|
      invariant AreFirstOccurrences(source, items, n, links)
    {
      var accepted := Accepted(source, items[n]);
      ghost var before := links;
      if accepted.Some? && !Mentions(links, accepted.value.urlHash) {
        links := links + [accepted.value];
      }
      StageGrows(source, items, n, before, links);
    }
  }

  lemma StageGrows(source: Source, items: seq<Item>, n: nat, before: seq<Link>, links: seq<Link>)
    requires n < |items| && AreFirstOccurrences(source, items, n, before)
    requires var accepted := Accepted(source, items[n]);
      links == if accepted.Some? && !Mentions(before, accepted.value.urlHash) then before + [accepted.value] else before
    ensures AreFirstOccurrences(source, items, n + 1, links)
  {
    hide Accepted;
    if links != before {
      var last := links[|before|];
      MentionsOneMore(before, last);
      hide Mentions;
      forall j: nat | j < n && Accepted(source, items[j]).Some?
        ensures Accepted(source, items[j]).value.urlHash != last.urlHash
      {
        assert Mentions(before, Accepted(source, items[j]).value.urlHash);
      }
      assert IsFirstOccurrence(source, items, n, last);
    }
    hide Mentions, IsFirstOccurrence;
    forall k: nat | k < |links| ensures OccursFirst(source, items, n + 1, links[k]) {
      if k < |before| {
        assert OccursFirst(source, items, n, before[k]);
      }
    }
  }

  lemma MentionsOneMore(links: seq<Link>, last: Link)
    ensures forall h: string :: Mentions(links + [last], h) <==> Mentions(links, h) || h == last.urlHash
    ensures DistinctHashes(links) && !Mentions(links, last.urlHash) ==> DistinctHashes(links + [last])
  {
    var all := links + [last];
    forall h: string ensures Mentions(all, h) <==> Mentions(links, h) || h == last.urlHash {
      if Mentions(links, h) {
        var i :| 0 <= i < |links| && links[i].urlHash == h;
        assert all[i].urlHash == h;
      }
      assert all[|links|] == last;
    }
  }

  predicate IsClaimed(row: Row) {
    row.status.Leased? || row.status.Crawling?
  }

  /** Rows the statement returns: inserted ones, and conflicting ones it updates. */
  function Returned(before: seq<Row>, after: seq<Row>, requeue: bool, links: seq<Link>): seq<Row>
    requires |before| <= |after|
  {
    UpdatedRows(before, after, requeue, links, |before|) + after[|before|..]
  }

  function UpdatedRows(before: seq<Row>, after: seq<Row>, requeue: bool, links: seq<Link>, n: nat): seq<Row>
    requires n <= |before| <= |after|
  {
    if n == 0 then []
    else
      UpdatedRows(before, after, requeue, links, n - 1)
      + (if Mentions(links, before[n - 1].urlHash) && !(requeue && IsClaimed(before[n - 1]))
         then [after[n - 1]] else [])
  }

  /**
   * `add_urls`. Without requeueing it returns how many rows were inserted, plus one for every row of the
   * batch first seen at this very instant; with requeueing, how many were inserted plus how many known,
   * unclaimed rows of the batch the job adopted.
   */
  method AddDiscovered(
      table: UrlTable, source: Source, items: seq<Item>, job: Option<nat>, requeue: bool, now: Time, dbNow: Time)
    returns (added: nat, ghost links: seq<Link>)
    requires table.clock <= now
    requires forall id: UrlId :: id < |table.rows| && Locked(table.S(), id) ==>
      !IsDiscovered(source, items, table.rows[id].urlHash)
    modifies table
    ensures AreFirstOccurrences(source, items, |items|, links)
    ensures var op := AddUrls(links, source.id, requeue, job, now, dbNow);
      if links == [] then table.S() == old(table.S()) && added == 0
      else
        Enabled(table.config, old(table.S()), op) && table.S() == After(table.config, old(table.S()), op)
    ensures |table.rows| >= |old(table.rows)|
    ensures forall id: UrlId :: id < |old(table.rows)| ==>
      IsRefreshed(old(table.rows)[id], table.rows[id], IsNamed(source, items, old(table.rows)[id].urlHash), requeue,
        job, now)
    ensures forall id: UrlId :: |old(table.rows)| <= id < |table.rows| ==>
      !Stored(old(table.rows), table.rows[id].urlHash) && IsNewRow(source, items, table.rows[id], job, dbNow)
    ensures forall urlHash: string :: IsNamed(source, items, urlHash) ==> Stored(table.rows, urlHash)
    ensures added == |table.rows| - |old(table.rows)|
      + if requeue then |Adopted(old(table.rows), links)|
        else SeenTwiceAt(old(table.rows), links, now, |old(table.rows)|)
  {
    hide Accepted, OnConflict, Returned, Upserted, SeenTwiceAt, Adopted, Count;
    var staged := Stage(source, items);
    links := staged;
    UpsertMeans(source, items, staged, table.rows, requeue, job, now, dbNow);
    if staged == [] {
      NothingMentioned(table.rows, now, |table.rows|);
      return 0, links;
    }
    forall id: UrlId, k: nat | id < |table.rows| && Locked(table.S(), id) && k < |staged|
      ensures staged[k].urlHash != table.rows[id].urlHash
    {
      assert OccursFirst(source, items, |items|, staged[k]);
    }
    var before := table.rows;
    UpsertKeepsRows(before, staged, source.id, requeue, job, now, dbNow);
    table.rows := Upserted(before, staged, source.id, requeue, job, now, dbNow);
    table.clock := now;
    var returned := Returned(before, table.rows, requeue, staged);
    var isNew := (row: Row) => row.firstSeenAt == row.lastSeenAt;
    added := if requeue then |returned| else Count(returned, isNew);
    if requeue {
      AdoptedAreReported(before, staged, source.id, job, now, dbNow);
    } else {
      ReportedIsGrowth(before, staged, source.id, job, now, dbNow, isNew);
    }
  }

  // ---------- What the upsert does to every row ----------

  /** The item names a URL with this hash, within the allowed domains. */
  ghost predicate Names(source: Source, item: Item, urlHash: string) {
    var n := source.normalize(item.url);
    && n.Some? && n.value.urlHash == urlHash
    && (source.allowedDomains == []
        || exists allowed: string :: allowed in source.allowedDomains && IsWithin(n.value.domain, allowed))
  }

  ghost predicate IsNamed(source: Source, items: seq<Item>, urlHash: string) {
    exists i: nat :: i < |items| && Names(source, items[i], urlHash)
  }

  /** A known row afterwards: only named ones change, and claimed ones are never requeued. */
  ghost predicate IsRefreshed(was: Row, now: Row, named: bool, requeue: bool, job: Option<nat>, at: Time) {
    now ==
      if !named then was
      else if !requeue then was.(lastSeenAt := at)
      else if was.status == Leased || was.status == Crawling then was
      else was.(lastSeenAt := at, jobId := job, status := Queued, nextCrawlAt := Some(at), retryCount := 0)
  }

  /** The row comes from the first item that names its hash, and waits to be crawled for the first time. */
  ghost predicate IsNewRow(source: Source, items: seq<Item>, row: Row, job: Option<nat>, dbNow: Time) {
    exists i: nat :: i < |items| && Names(source, items[i], row.urlHash) && ComesFrom(source, items, row, i, job, dbNow)
  }

  ghost predicate ComesFrom(source: Source, items: seq<Item>, row: Row, i: nat, job: Option<nat>, dbNow: Time)
    requires i < |items| && source.normalize(items[i].url).Some?
  {
    && (forall j: nat :: j < i ==> !Names(source, items[j], row.urlHash))
    && row == Row(
         row.urlHash, source.normalize(items[i].url).value.domain, source.id, job, source.priority(items[i]),
         items[i].urlType, Queued, None, None, 0, Some(dbNow), dbNow, dbNow, None, None, None)
  }

  lemma AcceptedMeans(source: Source, item: Item, urlHash: string)
    ensures Names(source, item, urlHash)
      <==> Accepted(source, item).Some? && Accepted(source, item).value.urlHash == urlHash
    ensures Accepted(source, item).Some? ==>
      && source.normalize(item.url).Some?
      && Accepted(source, item).value
         == Link(source.normalize(item.url).value.urlHash, source.normalize(item.url).value.domain,
                 source.priority(item), item.urlType)
  {
    hide DomainAllowed, IsWithin;
    if source.normalize(item.url).Some? {
      GuardComparesLabels(source, source.normalize(item.url).value.domain);
    }
  }

  lemma MentionedIsNamed(source: Source, items: seq<Item>, links: seq<Link>, urlHash: string)
    requires AreFirstOccurrences(source, items, |items|, links)
    ensures Mentions(links, urlHash) <==> IsNamed(source, items, urlHash)
  {
    hide Accepted, Names;
    if Mentions(links, urlHash) {
      var k: nat :| k < |links| && links[k].urlHash == urlHash;
      assert OccursFirst(source, items, |items|, links[k]);
      var i: nat :| i < |items| && IsFirstOccurrence(source, items, i, links[k]);
      AcceptedMeans(source, items[i], urlHash);
    }
    if IsNamed(source, items, urlHash) {
      var i: nat :| i < |items| && Names(source, items[i], urlHash);
      AcceptedMeans(source, items[i], urlHash);
    }
  }

  lemma FirstIsNew(source: Source, items: seq<Item>, link: Link, job: Option<nat>, dbNow: Time)
    requires OccursFirst(source, items, |items|, link)
    ensures IsNewRow(source, items, Inserted(link, source.id, job, dbNow), job, dbNow)
  {
    hide Accepted, Names;
    var i: nat :| i < |items| && IsFirstOccurrence(source, items, i, link);
    AcceptedMeans(source, items[i], link.urlHash);
    forall j: nat | j < i ensures !Names(source, items[j], link.urlHash) {
      AcceptedMeans(source, items[j], link.urlHash);
    }
    assert ComesFrom(source, items, Inserted(link, source.id, job, dbNow), i, job, dbNow);
  }

  lemma UpsertMeans(
      source: Source, items: seq<Item>, links: seq<Link>, rows: seq<Row>, requeue: bool, job: Option<nat>,
      now: Time, dbNow: Time)
    requires AreFirstOccurrences(source, items, |items|, links)
    ensures var after := Upserted(rows, links, source.id, requeue, job, now, dbNow);
      && |after| >= |rows|
      && (forall id: UrlId :: id < |rows| ==>
            IsRefreshed(rows[id], after[id], IsNamed(source, items, rows[id].urlHash), requeue, job, now))
      && (forall id: UrlId :: |rows| <= id < |after| ==>
            !Stored(rows, after[id].urlHash) && IsNewRow(source, items, after[id], job, dbNow))
      && (forall urlHash: string :: IsNamed(source, items, urlHash) ==> Stored(after, urlHash))
      && (links == [] ==> after == rows)
  {
    hide Accepted, Mentions, Stored, IsNamed, IsNewRow;
    var after, added := Upserted(rows, links, source.id, requeue, job, now, dbNow),
      NewRows(rows, links, source.id, job, dbNow);
    NewRowsShape(rows, links, source.id, job, dbNow);
    forall id: UrlId | id < |rows|
      ensures IsRefreshed(rows[id], after[id], IsNamed(source, items, rows[id].urlHash), requeue, job, now)
    {
      MentionedIsNamed(source, items, links, rows[id].urlHash);
    }
    NothingMentionedByNone(rows, links);
    hide OnConflict, IsRefreshed;
    forall id: UrlId | |rows| <= id < |after|
      ensures !Stored(rows, after[id].urlHash) && IsNewRow(source, items, after[id], job, dbNow)
    {
      var k: nat := id - |rows|;
      assert after[id] == added[k];
      var p :| 0 <= p < |links| && added[k] == Inserted(links[p], source.id, job, dbNow);
      assert OccursFirst(source, items, |items|, links[p]);
      FirstIsNew(source, items, links[p], job, dbNow);
    }
    forall urlHash: string | IsNamed(source, items, urlHash) ensures Stored(after, urlHash) {
      MentionedIsNamed(source, items, links, urlHash);
      MentionedIsStored(rows, links, source.id, requeue, job, now, dbNow, urlHash);
    }
  }

  lemma NothingMentionedByNone(rows: seq<Row>, links: seq<Link>)
    ensures links == [] ==> forall id: UrlId :: id < |rows| ==> !Mentions(links, rows[id].urlHash)
  {
  }

  lemma MentionedIsStored(
      rows: seq<Row>, links: seq<Link>, sourceId: nat, requeue: bool, job: Option<nat>, now: Time, dbNow: Time,
      urlHash: string)
    requires Mentions(links, urlHash)
    ensures Stored(Upserted(rows, links, sourceId, requeue, job, now, dbNow), urlHash)
  {
    var i :| 0 <= i < |links| && links[i].urlHash == urlHash;
    AcceptedHashesAreStored(rows, links, sourceId, job, dbNow, i);
    StoredStays(rows, links, sourceId, requeue, job, now, dbNow, urlHash);
  }

  predicate Adoptable(row: Row, links: seq<Link>) {
    Mentions(links, row.urlHash) && row.status != Leased && row.status != Crawling
  }

  /** The known rows of the batch that no worker holds. */
  function Adopted(rows: seq<Row>, links: seq<Link>): set<UrlId> {
    set id: UrlId | 0 <= id < |rows| && Adoptable(rows[id], links)
  }

  lemma UpsertKeepsRows(
      rows: seq<Row>, links: seq<Link>, sourceId: nat, requeue: bool, job: Option<nat>, now: Time, dbNow: Time)
    ensures |Upserted(rows, links, sourceId, requeue, job, now, dbNow)| >= |rows|
  {
  }

  /** With requeueing, the number reported is the growth plus the rows adopted. */
  lemma AdoptedAreReported(rows: seq<Row>, links: seq<Link>, sourceId: nat, job: Option<nat>, now: Time, dbNow: Time)
    ensures var after := Upserted(rows, links, sourceId, true, job, now, dbNow);
      |after| >= |rows| && |Returned(rows, after, true, links)| == |after| - |rows| + |Adopted(rows, links)|
  {
    hide Adopted, Mentions, UpdatedRows;
    UpdatedAreAdopted(rows, Upserted(rows, links, sourceId, true, job, now, dbNow), links, |rows|);
    assert rows[..|rows|] == rows;
  }

  lemma {:induction false} UpdatedAreAdopted(before: seq<Row>, after: seq<Row>, links: seq<Link>, n: nat)
    requires n <= |before| <= |after|
    ensures |UpdatedRows(before, after, true, links, n)| == |Adopted(before[..n], links)|
  {
    hide Mentions;
    if n > 0 {
      UpdatedAreAdopted(before, after, links, n - 1);
      OneMoreAdopted(before, links, n - 1);
    }
  }

  lemma OneMoreAdopted(rows: seq<Row>, links: seq<Link>, n: nat)
    requires n < |rows|
    ensures |Adopted(rows[..n + 1], links)| == |Adopted(rows[..n], links)| + if Adoptable(rows[n], links) then 1 else 0
  {
    hide Adoptable;
    var fewer, more := Adopted(rows[..n], links), Adopted(rows[..n + 1], links);
    assert more == if Adoptable(rows[n], links) then fewer + {n} else fewer;
  }

  lemma {:induction false} NothingMentioned(rows: seq<Row>, now: Time, n: nat)
    requires n <= |rows|
    ensures SeenTwiceAt(rows, [], now, n) == 0 && Adopted(rows, []) == {}
  {
    if n > 0 {
      NothingMentioned(rows, now, n - 1);
    }
  }

  // ---------- What discovery conserves ----------

  /** Every stored row that was not there before comes from an allowed domain. */
  lemma OnlyAllowedDomainsEnter(
      source: Source, items: seq<Item>, links: seq<Link>, rows: seq<Row>, job: Option<nat>, dbNow: Time, k: nat)
    requires AreFirstOccurrences(source, items, |items|, links)
    requires k < |NewRows(rows, links, source.id, job, dbNow)|
    ensures var row := NewRows(rows, links, source.id, job, dbNow)[k];
      && !Stored(rows, row.urlHash)
      && (source.allowedDomains == []
          || exists allowed: string :: allowed in source.allowedDomains && IsWithin(row.domain, allowed))
      && exists i: nat :: i < |items| && Accepted(source, items[i]).Some?
           && IsFirstOccurrence(source, items, i, Accepted(source, items[i]).value)
           && row == Inserted(Accepted(source, items[i]).value, source.id, job, dbNow)
  {
    hide DomainAllowed, IsWithin;
    NewRowsShape(rows, links, source.id, job, dbNow);
    var row := NewRows(rows, links, source.id, job, dbNow)[k];
    var p :| 0 <= p < |links| && row == Inserted(links[p], source.id, job, dbNow);
    assert OccursFirst(source, items, |items|, links[p]);
    GuardComparesLabels(source, row.domain);
  }

  /** Every accepted hash is stored afterwards, in exactly one row. */
  lemma {:induction false} AcceptedHashesAreStored(
      rows: seq<Row>, links: seq<Link>, sourceId: nat, job: Option<nat>, dbNow: Time, i: nat)
    requires i < |links|
    ensures Stored(rows, links[i].urlHash) || Stored(NewRows(rows, links, sourceId, job, dbNow), links[i].urlHash)
  {
    var front := links[..|links| - 1];
    var before, after := NewRows(rows, front, sourceId, job, dbNow), NewRows(rows, links, sourceId, job, dbNow);
    if i < |front| {
      AcceptedHashesAreStored(rows, front, sourceId, job, dbNow, i);
      if Stored(before, links[i].urlHash) {
        var k :| 0 <= k < |before| && before[k].urlHash == links[i].urlHash;
        assert after[k].urlHash == links[i].urlHash;
      }
    } else if !Stored(rows, links[i].urlHash) {
      assert after[|before|].urlHash == links[i].urlHash;
    }
  }

  /** Rows already stored, mentioned again, whose first sighting carries exactly this timestamp. */
  ghost predicate ClockCollision(rows: seq<Row>, links: seq<Link>, now: Time) {
    exists id: UrlId :: id < |rows| && Mentions(links, rows[id].urlHash) && rows[id].firstSeenAt == now
  }

  function SeenTwiceAt(rows: seq<Row>, links: seq<Link>, now: Time, n: nat): nat
    requires n <= |rows|
  {
    if n == 0 then 0
    else SeenTwiceAt(rows, links, now, n - 1)
         + (if Mentions(links, rows[n - 1].urlHash) && rows[n - 1].firstSeenAt == now then 1 else 0)
  }

  lemma {:induction false} CollisionsCounted(rows: seq<Row>, links: seq<Link>, now: Time, n: nat)
    requires n <= |rows|
    ensures SeenTwiceAt(rows, links, now, n) == 0 <==> !ClockCollision(rows[..n], links, now)
  {
    if n > 0 {
      CollisionsCounted(rows, links, now, n - 1);
      var last := rows[n - 1];
      if ClockCollision(rows[..n], links, now) {
        var id: UrlId :| id < n && Mentions(links, rows[..n][id].urlHash) && rows[..n][id].firstSeenAt == now;
        assert id < n - 1 ==> rows[..n - 1][id] == rows[id];
      }
      if Mentions(links, last.urlHash) && last.firstSeenAt == now {
        assert rows[..n][n - 1] == last;
      }
      if ClockCollision(rows[..n - 1], links, now) {
        var id: UrlId :| id < n - 1 && Mentions(links, rows[..n - 1][id].urlHash)
          && rows[..n - 1][id].firstSeenAt == now;
        assert rows[..n][id] == rows[..n - 1][id];
      }
    }
  }

  lemma {:induction false} CountAppend(a: seq<Row>, b: seq<Row>, p: Row -> bool)
    ensures Count(a + b, p) == Count(a, p) + Count(b, p)
  {
    if b == [] {
      assert a + b == a;
    } else {
      CountAppend(a, b[..|b| - 1], p);
      assert (a + b)[..|a + b| - 1] == a + b[..|b| - 1];
    }
  }

  lemma {:induction false} CountAll(rows: seq<Row>, p: Row -> bool)
    requires forall i :: 0 <= i < |rows| ==> p(rows[i])
    ensures Count(rows, p) == |rows|
  {
    if rows != [] {
      CountAll(rows[..|rows| - 1], p);
    }
  }

  lemma {:induction false} UpdatedCount(
      before: seq<Row>, after: seq<Row>, links: seq<Link>, now: Time, p: Row -> bool, n: nat)
    requires n <= |before| <= |after|
    requires forall row: Row :: p(row) <==> row.firstSeenAt == row.lastSeenAt
    requires forall i :: 0 <= i < |before| && Mentions(links, before[i].urlHash) ==>
      after[i] == before[i].(lastSeenAt := now)
    ensures Count(UpdatedRows(before, after, false, links, n), p) == SeenTwiceAt(before, links, now, n)
  {
    if n > 0 {
      UpdatedCount(before, after, links, now, p, n - 1);
      var front := UpdatedRows(before, after, false, links, n - 1);
      CountAppend(front, [after[n - 1]], p);
      assert front + [] == front;
      assert Count([after[n - 1]], p) == (if p(after[n - 1]) then 1 else 0) by {
        assert [after[n - 1]][..0] == [];
      }
    }
  }

  /**
   * The reported number is the growth of the table exactly when no known URL of the batch was first seen
   * at the very instant of this call; otherwise each such row is counted as if it were new.
   */
  lemma ReportedIsGrowth(
      rows: seq<Row>, links: seq<Link>, sourceId: nat, job: Option<nat>, now: Time, dbNow: Time, p: Row -> bool)
    requires DistinctHashes(links) && forall row: Row :: p(row) <==> row.firstSeenAt == row.lastSeenAt
    ensures var after := Upserted(rows, links, sourceId, false, job, now, dbNow);
      && |after| >= |rows|
      && Count(Returned(rows, after, false, links), p) == |after| - |rows| + SeenTwiceAt(rows, links, now, |rows|)
      && (Count(Returned(rows, after, false, links), p) == |after| - |rows| <==> !ClockCollision(rows, links, now))
  {
    hide Mentions, Stored;
    var after := Upserted(rows, links, sourceId, false, job, now, dbNow);
    NewRowsShape(rows, links, sourceId, job, dbNow);
    var added := after[|rows|..];
    assert added == NewRows(rows, links, sourceId, job, dbNow);
    CountAll(added, p);
    UpdatedCount(rows, after, links, now, p, |rows|);
    CountAppend(UpdatedRows(rows, after, false, links, |rows|), added, p);
    CollisionsCounted(rows, links, now, |rows|);
    assert rows[..|rows|] == rows;
  }

  /**
   * The exception happens: of two calls with the same link at the very instant the first stored it, the
   * second inserts nothing and reports one.
   */
  lemma CountedTwice(config: Config, link: Link, t: Time, p: Row -> bool) returns (states: seq<State>, ops: seq<Op>)
    requires forall row: Row :: p(row) <==> row.firstSeenAt == row.lastSeenAt
    ensures var discover := AddUrls([link], 0, false, None, t, t);
      && IsRun(config, states, ops) && ops == [discover, discover]
      && |states[2].rows| == |states[1].rows| == 1 && ClockCollision(states[1].rows, [link], t)
      && Count(Returned(states[1].rows, states[2].rows, false, [link]), p) == 1
  {
    var discover := AddUrls([link], 0, false, None, t, t);
    var row := Inserted(link, 0, None, t);
    OneLink(link, t);
    hide Upserted, Mentions, Stored;
    var s0, s1 := State([], map[], t), State([row], map[], t);
    assert IsStep(config, s0, discover, s1) && IsStep(config, s1, discover, s1);
    states, ops := [s0, s1, s1], [discover, discover];
    hide After, Enabled, Returned;
    ReportedIsGrowth([row], [link], 0, None, t, t, p);
    assert SeenTwiceAt([row], [link], t, 0) == 0;
    assert [row][0] == row;
  }

  /** One link is stored once, and stored again it stays as it is. */
  lemma OneLink(link: Link, t: Time)
    ensures var row := Inserted(link, 0, None, t);
      && Upserted([], [link], 0, false, None, t, t) == [row] == Upserted([row], [link], 0, false, None, t, t)
      && Mentions([link], row.urlHash)
  {
    var row := Inserted(link, 0, None, t);
    assert [link][0].urlHash == row.urlHash && [row][0].urlHash == link.urlHash && [link][..0] == [];
    hide Mentions;
    assert Mentions([link], row.urlHash) && !Stored([], link.urlHash) && Stored([row], link.urlHash);
    assert NewRows([], [link], 0, None, t) == [row] && NewRows([row], [link], 0, None, t) == [];
  }

  /** Discovering the same batch again, at any later instant, inserts nothing and reports zero. */
  lemma RepeatedBatchAddsNothing(
      rows: seq<Row>, links: seq<Link>, sourceId: nat, job: Option<nat>, now: Time, dbNow: Time, later: Time,
        laterDb: Time, p: Row -> bool)
    requires DistinctHashes(links) && forall row: Row :: p(row) <==> row.firstSeenAt == row.lastSeenAt
    requires later > dbNow && forall id: UrlId :: id < |rows| ==> later > rows[id].firstSeenAt
    ensures var once := Upserted(rows, links, sourceId, false, job, now, dbNow);
            var twice := Upserted(once, links, sourceId, false, job, later, laterDb);
            |twice| == |once| && Count(Returned(once, twice, false, links), p) == 0
  {
    var once := Upserted(rows, links, sourceId, false, job, now, dbNow);
    NewRowsShape(rows, links, sourceId, job, dbNow);
    forall i: nat | i < |links| ensures Stored(once, links[i].urlHash) {
      AcceptedHashesAreStored(rows, links, sourceId, job, dbNow, i);
      StoredStays(rows, links, sourceId, false, job, now, dbNow, links[i].urlHash);
    }
    NothingNew(once, links, sourceId, job, laterDb);
    hide Stored, Mentions;
    forall id: UrlId | id < |once| ensures once[id].firstSeenAt != later {
      if id >= |rows| {
        assert once[id] == NewRows(rows, links, sourceId, job, dbNow)[id - |rows|];
      }
    }
    assert !ClockCollision(once, links, later);
    ReportedIsGrowth(once, links, sourceId, job, later, laterDb, p);
  }

  lemma StoredStays(
      rows: seq<Row>, links: seq<Link>, sourceId: nat, requeue: bool, job: Option<nat>, now: Time, dbNow: Time,
      urlHash: string)
    requires Stored(rows, urlHash) || Stored(NewRows(rows, links, sourceId, job, dbNow), urlHash)
    ensures Stored(Upserted(rows, links, sourceId, requeue, job, now, dbNow), urlHash)
  {
    hide Mentions;
    var after := Upserted(rows, links, sourceId, requeue, job, now, dbNow);
    if i :| 0 <= i < |rows| && rows[i].urlHash == urlHash {
      assert after[i].urlHash == urlHash;
    } else {
      var added := NewRows(rows, links, sourceId, job, dbNow);
      var k :| 0 <= k < |added| && added[k].urlHash == urlHash;
      assert after[|rows| + k].urlHash == urlHash;
    }
  }

  lemma {:induction false} NothingNew(rows: seq<Row>, links: seq<Link>, sourceId: nat, job: Option<nat>, dbNow: Time)
    requires forall i: nat :: i < |links| ==> Stored(rows, links[i].urlHash)
    ensures NewRows(rows, links, sourceId, job, dbNow) == []
  {
    if links != [] {
      NothingNew(rows, links[..|links| - 1], sourceId, job, dbNow);
    }
  }
}
