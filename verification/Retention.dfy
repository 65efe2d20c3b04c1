/** Counters: dictionaries from keys to counts, and the multisets they stand for. */
module Counters {
  function Get<K>(counts: map<K, nat>, key: K): nat {
    if key in counts then counts[key] else 0
  }

  ghost function BagOf<K(!new)>(counts: map<K, nat>): (bag: multiset<K>)
    ensures forall k: K :: bag[k] == Get(counts, k)
    decreases |counts|
  {
    if |counts| == 0 then multiset{}
    else
      var key :| key in counts;
      var rest := counts - {key};
      assert |rest| < |counts| by {
        assert rest.Keys == counts.Keys - {key};
      }
      BagOf(rest)[key := counts[key]]
  }

  /** The sum of all counts. */
  ghost function Total<K(!new)>(counts: map<K, nat>): nat {
    |BagOf(counts)|
  }

  /** `Counter(keys)`. */
  function Tally<K(==)>(keys: seq<K>): map<K, nat> {
    if keys == [] then map[]
    else
      var front, last := Tally(keys[..|keys| - 1]), keys[|keys| - 1];
      front[last := Get(front, last) + 1]
  }

  lemma {:induction false} TallyCounts<K(!new)>(keys: seq<K>)
    ensures BagOf(Tally(keys)) == multiset(keys) && Total(Tally(keys)) == |keys|
  {
    if keys != [] {
      var front := keys[..|keys| - 1];
      TallyCounts(front);
      assert keys == front + [keys[|keys| - 1]];
      assert BagOf(Tally(keys)) == BagOf(Tally(front)) + multiset{keys[|keys| - 1]};
    }
  }

  /** `counts` is the pointwise sum of `a` and `b`. */
  ghost predicate IsSum<K(!new)>(counts: map<K, nat>, a: map<K, nat>, b: map<K, nat>) {
    forall k: K :: Get(counts, k) == Get(a, k) + Get(b, k)
  }

  lemma SumAddsTotals<K(!new)>(counts: map<K, nat>, a: map<K, nat>, b: map<K, nat>)
    requires forall k: K :: Get(counts, k) == Get(a, k) + Get(b, k)
    ensures BagOf(counts) == BagOf(a) + BagOf(b)
    ensures Total(counts) == Total(a) + Total(b)
  {
    assert BagOf(counts) == BagOf(a) + BagOf(b);
  }

  /** Adds every item of `incoming` to `existing`. */
  method MergeCounts(existing: map<string, nat>, incoming: map<string, nat>) returns (merged: map<string, nat>)
    ensures IsSum(merged, existing, incoming)
  {
    merged := existing;
    var left := incoming.Keys;
    while left != {}
      invariant left <= incoming.Keys
      invariant forall k: string :: Get(merged, k) == Get(existing, k) + (if k in left then 0 else Get(incoming, k))
      decreases |left|
    {
      var key :| key in left;
      merged := merged[key := Get(merged, key) + incoming[key]];
      left := left - {key};
    }
  }
}

/** Expiry of old articles in batches, and the durable statistics that outlive them. */
module Retention {
  import opened Wrappers
  import opened Counters

  type ArticleId = nat
  type Seconds = int
  type Day = int

  datatype Article = Article(createdAt: Seconds, language: string, source: string, duplicateOf: Option<ArticleId>)

  /** The tables whose rows depend on an article. */
  datatype Table = Embeddings | Entities | Topics | Versions | LlmExtractions | ProcessingJobs

  datatype ChildKey = ChildKey(table: Table, row: nat)

  datatype Db = Db(articles: map<ArticleId, Article>, children: map<ChildKey, ArticleId>)

  /** The UTC calendar day of an instant. */
  function DayOf(t: Seconds): Day {
    t / 86400
  }

  /** Days are the intervals of 24 hours from the epoch on, and before it. */
  lemma DaysHave24Hours(t: Seconds, day: Day)
    ensures DayOf(t) == day <==> day * 24 * 60 * 60 <= t < (day + 1) * 24 * 60 * 60
  {
  }

  // ---------- Batches ----------

  function Expired(articles: map<ArticleId, Article>, cutoff: Seconds): set<ArticleId> {
    set id | id in articles && articles[id].createdAt < cutoff
  }

  /** Any answer to "oldest expired first, at most `limit`"; ties may come in any order. */
  predicate IsOldest(articles: map<ArticleId, Article>, cutoff: Seconds, limit: nat, ids: seq<ArticleId>) {
    && (forall i, j :: 0 <= i < j < |ids| ==> ids[i] != ids[j])
    && |ids| == Min(|Expired(articles, cutoff)|, limit)
    && (forall i :: 0 <= i < |ids| ==> ids[i] in Expired(articles, cutoff))
    && OldestFirst(articles, Elements(ids), Expired(articles, cutoff))
  }

  /** Nothing left in the pool is older than anything picked. */
  predicate OldestFirst(articles: map<ArticleId, Article>, picked: set<ArticleId>, pool: set<ArticleId>) {
    forall a: ArticleId, b: ArticleId ::
      a in picked && b in pool && b !in picked && a in articles && b in articles ==>
        articles[a].createdAt <= articles[b].createdAt
  }

  function Larger(a: nat, b: nat): nat {
    if a >= b then a else b
  }

  function Min(a: nat, b: nat): nat {
    if a <= b then a else b
  }

  function Elements(ids: seq<ArticleId>): set<ArticleId> {
    set id | id in ids
  }

  lemma {:induction false} OldestExist(
      articles: map<ArticleId, Article>, cutoff: Seconds, limit: nat, pool: set<ArticleId>)
    returns (ids: seq<ArticleId>)
    requires pool <= Expired(articles, cutoff)
    ensures forall i, j :: 0 <= i < j < |ids| ==> ids[i] != ids[j]
    ensures |ids| == Min(|pool|, limit) && Elements(ids) <= pool
    ensures OldestFirst(articles, Elements(ids), pool)
  {
    if limit == 0 || pool == {} {
      ids := [];
    } else {
      var first := OldestOf(articles, pool);
      var rest := OldestExist(articles, cutoff, limit - 1, pool - {first});
      ids := [first] + rest;
      assert Elements(ids) == {first} + Elements(rest);
      forall i | 0 <= i < |rest| ensures rest[i] != first && rest[i] in pool {
        assert rest[i] in Elements(rest);
      }
    }
  }

  lemma {:induction false} OldestOf(articles: map<ArticleId, Article>, pool: set<ArticleId>) returns (first: ArticleId)
    requires pool != {} && forall id: ArticleId :: id in pool ==> id in articles
    ensures first in pool && forall id: ArticleId :: id in pool ==> articles[first].createdAt <= articles[id].createdAt
    decreases pool
  {
    var x :| x in pool;
    first := x;
    if pool != {x} {
      var other := OldestOf(articles, pool - {x});
      if articles[other].createdAt < articles[x].createdAt {
        first := other;
      }
    }
  }

  // ---------- What a purge does to the tables ----------

  /** Foreign keys: child rows and duplicate markers only point at stored articles. */
  ghost predicate NoDangling(db: Db) {
    && (forall c: ChildKey :: c in db.children ==> db.children[c] in db.articles)
    && (forall id: ArticleId :: id in db.articles && db.articles[id].duplicateOf.Some? ==>
         db.articles[id].duplicateOf.value in db.articles)
  }

  /** An article after `gone` have been deleted around it. */
  function Detached(a: Article, gone: set<ArticleId>): Article {
    if a.duplicateOf.Some? && a.duplicateOf.value in gone then a.(duplicateOf := None) else a
  }

  ghost function Without(db: Db, gone: set<ArticleId>): Db {
    Db(map id | id in db.articles && id !in gone :: Detached(db.articles[id], gone),
       map c | c in db.children && db.children[c] !in gone :: db.children[c])
  }

  /** `gone` are exactly the oldest `limit` expired articles of `db`, or all of them if there are fewer. */
  ghost predicate IsPurgeSet(db: Db, cutoff: Seconds, limit: nat, gone: set<ArticleId>) {
    && gone <= Expired(db.articles, cutoff)
    && |gone| == Min(|Expired(db.articles, cutoff)|, limit)
    && OldestFirst(db.articles, gone, Expired(db.articles, cutoff))
  }

  lemma WithoutKeepsReferences(db: Db, gone: set<ArticleId>)
    requires NoDangling(db)
    ensures NoDangling(Without(db, gone))
  {
  }

  /**
   * After a purge with enough quota nothing expired is left; otherwise only rows at least as new as every
   * deleted one.
   */
  lemma WhatAPurgeLeaves(db: Db, cutoff: Seconds, limit: nat, gone: set<ArticleId>)
    requires IsPurgeSet(db, cutoff, limit, gone)
    ensures var left := Without(db, gone).articles;
      && (Expired(left, cutoff) == {} <==> |Expired(db.articles, cutoff)| <= limit)
      && (forall id: ArticleId :: id in db.articles && db.articles[id].createdAt >= cutoff ==> id in left)
      && (forall a: ArticleId, b: ArticleId :: a in gone && b in left ==> db.articles[a].createdAt <= left[b].createdAt)
  {
    LeftOver(db, gone, cutoff);
    var expired := Expired(db.articles, cutoff);
    assert |expired - gone| == |expired| - |gone|;
    assert expired - gone == {} <==> |expired - gone| == 0;
  }

  lemma WithoutTwice(db: Db, a: set<ArticleId>, b: set<ArticleId>)
    ensures Without(Without(db, a), b) == Without(db, a + b)
  {
    var once, both := Without(Without(db, a), b), Without(db, a + b);
    assert once.articles.Keys == both.articles.Keys;
    assert once.children.Keys == both.children.Keys;
    forall id: ArticleId | id in both.articles ensures once.articles[id] == both.articles[id] {
    }
  }

  /** A batch taken from what earlier batches left over extends the purge set. */
  lemma BatchExtendsPurge(
      db: Db, cutoff: Seconds, limit: nat, gone: set<ArticleId>, batchSize: nat, ids: seq<ArticleId>)
    requires IsPurgeSet(db, cutoff, limit, gone)
    requires IsOldest(Without(db, gone).articles, cutoff, batchSize, ids)
    ensures IsPurgeSet(db, cutoff, limit + batchSize, gone + Elements(ids))
    ensures |gone + Elements(ids)| == |gone| + |ids|
    ensures ids == [] && batchSize > 0 ==> gone == Expired(db.articles, cutoff)
  {
    hide Without, OldestFirst, Expired;
    var expired, picked := Expired(db.articles, cutoff), Elements(ids);
    LeftOver(db, gone, cutoff);
    DistinctElements(ids);
    OldestAreExpired(Without(db, gone).articles, cutoff, batchSize, ids);
    ExpiredAreStored(db.articles, cutoff);
    OrderExtends(db, gone, picked, expired);
    UnionSize(expired, gone, picked);
    assert ids == [] && batchSize > 0 ==> |expired - gone| == 0;
  }

  lemma OldestAreExpired(articles: map<ArticleId, Article>, cutoff: Seconds, limit: nat, ids: seq<ArticleId>)
    requires IsOldest(articles, cutoff, limit, ids)
    ensures Elements(ids) <= Expired(articles, cutoff)
  {
  }

  lemma ExpiredAreStored(articles: map<ArticleId, Article>, cutoff: Seconds)
    ensures forall id: ArticleId :: id in Expired(articles, cutoff) ==> id in articles
  {
  }

  lemma UnionSize(all: set<ArticleId>, a: set<ArticleId>, b: set<ArticleId>)
    requires a <= all && b <= all - a
    ensures |all - a| == |all| - |a| && |a + b| == |a| + |b| && a + b <= all
    ensures |all - a| == 0 ==> a == all
  {
    assert all == a + (all - a);
  }

  lemma LeftOver(db: Db, gone: set<ArticleId>, cutoff: Seconds)
    ensures Expired(Without(db, gone).articles, cutoff) == Expired(db.articles, cutoff) - gone
  {
  }

  lemma OrderExtends(db: Db, gone: set<ArticleId>, picked: set<ArticleId>, expired: set<ArticleId>)
    requires OldestFirst(db.articles, gone, expired)
    requires OldestFirst(Without(db, gone).articles, picked, expired - gone)
    requires picked <= expired - gone && forall id: ArticleId :: id in expired ==> id in db.articles
    ensures OldestFirst(db.articles, gone + picked, expired)
  {
    var left := Without(db, gone).articles;
    forall a: ArticleId, b: ArticleId | a in gone + picked && b in expired && b !in gone + picked && a in db.articles
      ensures db.articles[a].createdAt <= db.articles[b].createdAt
    {
      if a in picked {
        assert left[a].createdAt == db.articles[a].createdAt && left[b].createdAt == db.articles[b].createdAt;
      }
    }
  }

  lemma {:induction false} DistinctElements(ids: seq<ArticleId>)
    requires forall i, j :: 0 <= i < j < |ids| ==> ids[i] != ids[j]
    ensures |Elements(ids)| == |ids|
  {
    if ids != [] {
      var front := ids[..|ids| - 1];
      DistinctElements(front);
      assert Elements(ids) == Elements(front) + {ids[|ids| - 1]};
    }
  }

  // ---------- Days ----------

  /** The creation days of the stored articles, one per article. */
  ghost function DayBag(articles: map<ArticleId, Article>): multiset<Day>
    decreases |articles|
  {
    if |articles| == 0 then multiset{}
    else
      var id :| id in articles;
      assert (articles - {id}).Keys == articles.Keys - {id};
      multiset{DayOf(articles[id].createdAt)} + DayBag(articles - {id})
  }

  lemma {:induction false} DayBagRemove(articles: map<ArticleId, Article>, id: ArticleId)
    requires id in articles
    ensures DayBag(articles) == multiset{DayOf(articles[id].createdAt)} + DayBag(articles - {id})
    decreases |articles|
  {
    hide DayBag, DayOf;
    NotEmpty(articles, id);
    var other := SomeSplit(articles);
    if other != id {
      OneLess(articles, other, id);
      OneLess(articles, id, other);
      DayBagRemove(articles - {other}, id);
      DayBagRemove(articles - {id}, other);
    }
  }

  lemma NotEmpty(articles: map<ArticleId, Article>, id: ArticleId)
    requires id in articles
    ensures |articles| > 0
  {
  }

  lemma OneLess(articles: map<ArticleId, Article>, removed: ArticleId, kept: ArticleId)
    requires removed in articles && kept in articles && removed != kept
    ensures var rest := articles - {removed};
      |rest| < |articles| && kept in rest && rest[kept] == articles[kept]
      && rest - {kept} == articles - {kept} - {removed}
  {
    assert (articles - {removed}).Keys == articles.Keys - {removed};
  }

  /** The article by which the definition splits the bag. */
  lemma SomeSplit(articles: map<ArticleId, Article>) returns (id: ArticleId)
    requires |articles| > 0
    ensures id in articles && DayBag(articles) == multiset{DayOf(articles[id].createdAt)} + DayBag(articles - {id})
  {
    id :| id in articles && DayBag(articles) == multiset{DayOf(articles[id].createdAt)} + DayBag(articles - {id});
  }

  lemma {:induction false} DayBagSize(articles: map<ArticleId, Article>)
    ensures |DayBag(articles)| == |articles|
    decreases |articles|
  {
    if |articles| > 0 {
      var id :| id in articles;
      DayBagRemove(articles, id);
      assert (articles - {id}).Keys == articles.Keys - {id};
      DayBagSize(articles - {id});
    }
  }

  /** Only creation times matter to the bag. */
  lemma {:induction false} DayBagSame(a: map<ArticleId, Article>, b: map<ArticleId, Article>)
    requires a.Keys == b.Keys && forall id: ArticleId :: id in a ==> a[id].createdAt == b[id].createdAt
    ensures DayBag(a) == DayBag(b)
    decreases |a|
  {
    assert |a| == |a.Keys| == |b.Keys| == |b|;
    if |a| > 0 {
      var id :| id in a;
      DayBagRemove(a, id);
      DayBagRemove(b, id);
      assert (a - {id}).Keys == a.Keys - {id} && (b - {id}).Keys == b.Keys - {id};
      DayBagSame(a - {id}, b - {id});
    }
  }

  ghost function DaysOf(articles: map<ArticleId, Article>, ids: seq<ArticleId>): multiset<Day>
    requires forall i :: 0 <= i < |ids| ==> ids[i] in articles
  {
    if ids == [] then multiset{}
    else DaysOf(articles, ids[..|ids| - 1]) + multiset{DayOf(articles[ids[|ids| - 1]].createdAt)}
  }

  lemma {:induction false} DayBagRemoveAll(articles: map<ArticleId, Article>, ids: seq<ArticleId>)
    requires forall i :: 0 <= i < |ids| ==> ids[i] in articles
    requires forall i, j :: 0 <= i < j < |ids| ==> ids[i] != ids[j]
    ensures DayBag(articles) == DayBag(articles - Elements(ids)) + DaysOf(articles, ids)
    ensures |DaysOf(articles, ids)| == |ids|
  {
    hide DayBag, DayOf;
    if ids == [] {
      assert articles - Elements(ids) == articles;
    } else {
      var front, last := ids[..|ids| - 1], ids[|ids| - 1];
      DayBagRemoveAll(articles, front);
      assert last !in front;
      DayBagRemove(articles - Elements(front), last);
      assert Elements(ids) == Elements(front) + {last};
      assert articles - Elements(front) - {last} == articles - Elements(ids);
    }
  }

  /** The counter of each day is the number of live articles of that day plus those deleted since. */
  ghost predicate Balanced(created: map<Day, nat>, articles: map<ArticleId, Article>, gone: multiset<Day>) {
    BagOf(created) == DayBag(articles) + gone
  }

  lemma CreateKeepsBalance(
      created: map<Day, nat>, articles: map<ArticleId, Article>, gone: multiset<Day>, id: ArticleId, article: Article)
    requires Balanced(created, articles, gone) && id !in articles
    ensures var today := DayOf(article.createdAt);
            Balanced(created[today := Get(created, today) + 1], articles[id := article], gone)
  {
    hide DayBag, DayOf, BagOf, Get;
    var today, after := DayOf(article.createdAt), articles[id := article];
    DayBagRemove(after, id);
    assert after - {id} == articles;
    BumpAddsOne(created, today);
  }

  lemma BumpAddsOne(created: map<Day, nat>, day: Day)
    ensures BagOf(created[day := Get(created, day) + 1]) == BagOf(created) + multiset{day}
  {
    var bumped := created[day := Get(created, day) + 1];
    forall d: Day ensures BagOf(bumped)[d] == (BagOf(created) + multiset{day})[d] {
      assert BagOf(bumped)[d] == Get(bumped, d) && BagOf(created)[d] == Get(created, d);
    }
  }

  lemma LiveNeverExceedsCounter(
      created: map<Day, nat>, articles: map<ArticleId, Article>, gone: multiset<Day>, day: Day)
    requires Balanced(created, articles, gone)
    ensures Get(created, day) >= DayBag(articles)[day]
  {
    hide DayBag;
    assert Get(created, day) == BagOf(created)[day];
  }

  lemma {:induction false} DayIsLive(articles: map<ArticleId, Article>, day: Day)
    ensures DayBag(articles)[day] > 0
      <==> exists id: ArticleId :: id in articles && DayOf(articles[id].createdAt) == day
    decreases |articles|
  {
    if |articles| > 0 {
      var id :| id in articles;
      DayBagRemove(articles, id);
      assert (articles - {id}).Keys == articles.Keys - {id};
      DayIsLive(articles - {id}, day);
      if other: ArticleId :| other in articles && DayOf(articles[other].createdAt) == day && other != id {
        assert other in articles - {id} && DayOf((articles - {id})[other].createdAt) == day;
      }
    }
  }

  // ---------- Statistics ----------

  datatype Cycle = Cycle(
    day: Day, completed: bool, deleted: nat, batches: nat, byLanguage: map<string, nat>, bySource: map<string, nat>)

  datatype DailyRow = DailyRow(deleted: nat, cycles: nat, byLanguage: map<string, nat>, bySource: map<string, nat>)

  const EMPTY_ROW := DailyRow(0, 0, map[], map[])

  datatype DayKey = DayKey(day: Day, key: string)

  datatype Stats = Stats(
    cycles: seq<Cycle>, daily: map<Day, DailyRow>, languages: map<DayKey, nat>, sources: map<DayKey, nat>)

  function RowOf(daily: map<Day, DailyRow>, day: Day): DailyRow {
    if day in daily then daily[day] else EMPTY_ROW
  }

  function DeletedOn(cycles: seq<Cycle>, day: Day): nat {
    if cycles == [] then 0
    else
      var last := cycles[|cycles| - 1];
      DeletedOn(cycles[..|cycles| - 1], day) + (if last.day == day then last.deleted else 0)
  }

  function AllDeleted(cycles: seq<Cycle>): nat {
    if cycles == [] then 0 else AllDeleted(cycles[..|cycles| - 1]) + cycles[|cycles| - 1].deleted
  }

  lemma RecordedLast(s: Stats, c: Cycle, s': Stats)
    requires IsRecorded(s, c, s')
    ensures |s'.cycles| == |s.cycles| + 1 && s'.cycles[|s.cycles|] == c
  {
  }

  lemma TotalDecides(total: nat, counted: nat, byLanguage: map<string, nat>, bySource: map<string, nat>)
    requires SumsAgree(counted, byLanguage, bySource)
    ensures SumsAgree(total, byLanguage, bySource) <==> total == counted
  {
  }

  lemma OneMoreCycle(cycles: seq<Cycle>, c: Cycle)
    ensures AllDeleted(cycles + [c]) == AllDeleted(cycles) + c.deleted
  {
    assert (cycles + [c])[..|cycles|] == cycles;
  }

  /** The deletions of one language that a day's cycles recorded. */
  function LanguageOn(cycles: seq<Cycle>, day: Day, language: string): nat {
    if cycles == [] then 0
    else
      var last := cycles[|cycles| - 1];
      LanguageOn(cycles[..|cycles| - 1], day, language)
        + (if last.day == day then Get(last.byLanguage, language) else 0)
  }

  function SourceOn(cycles: seq<Cycle>, day: Day, source: string): nat {
    if cycles == [] then 0
    else
      var last := cycles[|cycles| - 1];
      SourceOn(cycles[..|cycles| - 1], day, source) + (if last.day == day then Get(last.bySource, source) else 0)
  }

  /** The books: every day's row and breakdown rows are the sums over the day's cycles, failed ones included. */
  ghost predicate Ledger(s: Stats) {
    forall day: Day :: DayAgrees(s, day)
  }

  ghost predicate DayAgrees(s: Stats, day: Day) {
    var row := RowOf(s.daily, day);
    && row.deleted == DeletedOn(s.cycles, day)
    && (forall k: string :: Get(s.languages, DayKey(day, k)) == Get(row.byLanguage, k) == LanguageOn(s.cycles, day, k))
    && (forall k: string :: Get(s.sources, DayKey(day, k)) == Get(row.bySource, k) == SourceOn(s.cycles, day, k))
  }

  /** On top of the books: per cycle and per day, language sums and source sums equal the articles deleted. */
  ghost predicate RollupsAgree(s: Stats) {
    && Ledger(s)
    && (forall i :: 0 <= i < |s.cycles| ==>
         SumsAgree(s.cycles[i].deleted, s.cycles[i].byLanguage, s.cycles[i].bySource))
    && (forall day: Day :: RowSumsAgree(RowOf(s.daily, day)))
  }

  ghost predicate SumsAgree(deleted: nat, byLanguage: map<string, nat>, bySource: map<string, nat>) {
    Total(byLanguage) == deleted == Total(bySource)
  }

  ghost predicate RowSumsAgree(row: DailyRow) {
    SumsAgree(row.deleted, row.byLanguage, row.bySource)
  }

  /** The table after adding a day's counts. */
  ghost predicate IsTableSum(after: map<DayKey, nat>, before: map<DayKey, nat>, day: Day, counts: map<string, nat>) {
    forall key: DayKey :: Get(after, key) == Get(before, key) + (if key.day == day then Get(counts, key.key) else 0)
  }

  /** `s'` is `s` with the cycle `c` entered into every table. */
  ghost predicate IsRecorded(s: Stats, c: Cycle, s': Stats) {
    && s'.cycles == s.cycles + [c]
    && (forall d: Day :: d != c.day ==> RowOf(s'.daily, d) == RowOf(s.daily, d))
    && IsRowSum(RowOf(s'.daily, c.day), RowOf(s.daily, c.day), c)
    && IsTableSum(s'.languages, s.languages, c.day, c.byLanguage)
    && IsTableSum(s'.sources, s.sources, c.day, c.bySource)
  }

  ghost predicate IsRowSum(now: DailyRow, was: DailyRow, c: Cycle) {
    && now.deleted == was.deleted + c.deleted && now.cycles == was.cycles + 1
    && IsSum(now.byLanguage, was.byLanguage, c.byLanguage) && IsSum(now.bySource, was.bySource, c.bySource)
  }

  /** Recording any cycle keeps the books. */
  lemma RecordKeepsLedger(s: Stats, c: Cycle, s': Stats)
    requires Ledger(s) && IsRecorded(s, c, s')
    ensures Ledger(s')
  {
    hide DayAgrees, IsRecorded;
    forall day: Day ensures DayAgrees(s', day) {
      if day == c.day {
        RecordedDayAgrees(s, c, s');
      } else {
        OtherDayAgrees(s, c, s', day);
      }
    }
  }

  /** Recording a cycle keeps the sums in agreement exactly when the cycle's own sums agree. */
  lemma RecordKeepsRollups(s: Stats, c: Cycle, s': Stats)
    requires RollupsAgree(s) && IsRecorded(s, c, s')
    ensures RollupsAgree(s') <==> SumsAgree(c.deleted, c.byLanguage, c.bySource)
  {
    RecordKeepsLedger(s, c, s');
    hide Ledger, SumsAgree, IsTableSum;
    assert s'.cycles[|s.cycles|] == c;
    if SumsAgree(c.deleted, c.byLanguage, c.bySource) {
      assert RowSumsAgree(RowOf(s.daily, c.day));
      RowSumsGrow(RowOf(s'.daily, c.day), RowOf(s.daily, c.day), c);
    }
  }

  lemma RowSumsGrow(now: DailyRow, was: DailyRow, c: Cycle)
    requires IsRowSum(now, was, c) && RowSumsAgree(was) && SumsAgree(c.deleted, c.byLanguage, c.bySource)
    ensures RowSumsAgree(now)
  {
    hide Total, IsSum;
    TotalsAgree(now.byLanguage, was.byLanguage, c.byLanguage);
    TotalsAgree(now.bySource, was.bySource, c.bySource);
  }

  lemma OneMoreOfDay(cycles: seq<Cycle>, c: Cycle, day: Day)
    ensures DeletedOn(cycles + [c], day) == DeletedOn(cycles, day) + if c.day == day then c.deleted else 0
    ensures forall k: string ::
      LanguageOn(cycles + [c], day, k) == LanguageOn(cycles, day, k) + if c.day == day then Get(c.byLanguage, k) else 0
    ensures forall k: string ::
      SourceOn(cycles + [c], day, k) == SourceOn(cycles, day, k) + if c.day == day then Get(c.bySource, k) else 0
  {
    assert (cycles + [c])[..|cycles|] == cycles;
  }

  lemma RecordedDayAgrees(s: Stats, c: Cycle, s': Stats)
    requires DayAgrees(s, c.day) && IsRecorded(s, c, s')
    ensures DayAgrees(s', c.day)
  {
    var was, now := RowOf(s.daily, c.day), RowOf(s'.daily, c.day);
    OneMoreOfDay(s.cycles, c, c.day);
    hide Get, IsSum, IsTableSum, LanguageOn, SourceOn, DeletedOn;
    BreakdownAgrees(s'.languages, s.languages, c.day, c.byLanguage, was.byLanguage, now.byLanguage);
    BreakdownAgrees(s'.sources, s.sources, c.day, c.bySource, was.bySource, now.bySource);
  }

  lemma TotalsAgree(counts: map<string, nat>, a: map<string, nat>, b: map<string, nat>)
    requires IsSum(counts, a, b)
    ensures Total(counts) == Total(a) + Total(b)
  {
    SumAddsTotals(counts, a, b);
  }

  lemma BreakdownAgrees(after: map<DayKey, nat>, table: map<DayKey, nat>, day: Day,
                        counts: map<string, nat>, was: map<string, nat>, now: map<string, nat>)
    requires IsTableSum(after, table, day, counts) && IsSum(now, was, counts)
    requires forall k: string :: Get(table, DayKey(day, k)) == Get(was, k)
    ensures forall k: string :: Get(after, DayKey(day, k)) == Get(now, k) == Get(was, k) + Get(counts, k)
  {
    hide Get;
    forall k: string ensures Get(after, DayKey(day, k)) == Get(now, k) == Get(was, k) + Get(counts, k) {
      assert Get(after, DayKey(day, k)) == Get(table, DayKey(day, k)) + Get(counts, k);
    }
  }

  lemma OtherDayAgrees(s: Stats, c: Cycle, s': Stats, day: Day)
    requires DayAgrees(s, day) && day != c.day && IsRecorded(s, c, s')
    ensures DayAgrees(s', day)
  {
    OneMoreOfDay(s.cycles, c, day);
    hide Get, IsTableSum, IsRowSum, LanguageOn, SourceOn, DeletedOn;
    OtherDayKept(s'.languages, s.languages, c.day, c.byLanguage, day);
    OtherDayKept(s'.sources, s.sources, c.day, c.bySource, day);
  }

  /** Adding one day's counts leaves the rows of another day alone. */
  lemma OtherDayKept(after: map<DayKey, nat>, table: map<DayKey, nat>, on: Day, counts: map<string, nat>, day: Day)
    requires IsTableSum(after, table, on, counts) && day != on
    ensures forall k: string :: Get(after, DayKey(day, k)) == Get(table, DayKey(day, k))
  {
    hide Get;
    forall k: string ensures Get(after, DayKey(day, k)) == Get(table, DayKey(day, k)) {
      assert DayKey(day, k).day == day;
    }
  }

  /** Upserts every positive count of a day into a breakdown table. */
  method AddToTable(table: map<DayKey, nat>, day: Day, counts: map<string, nat>) returns (after: map<DayKey, nat>)
    ensures IsTableSum(after, table, day, counts)
  {
    after := table;
    var left := counts.Keys;
    while left != {}
      invariant left <= counts.Keys
      invariant forall key: DayKey ::
        Get(after, key) == Get(table, key) + (if key.day == day && key.key !in left then Get(counts, key.key) else 0)
      decreases |left|
    {
      var k :| k in left;
      if counts[k] > 0 {
        after := after[DayKey(day, k) := Get(after, DayKey(day, k)) + counts[k]];
      }
      left := left - {k};
    }
  }

  // ---------- The database ----------

  /** Where in which batch an exception strikes. */
  datatype Crash = Crash(batch: nat, point: CrashPoint)

  /** In the batch query, between tallying and committing a batch, or right after its commit. */
  datatype CrashPoint = BeforeTally | BeforeCommit | AfterCommit

  class RetentionDb {
    var articles: map<ArticleId, Article>
    var children: map<ChildKey, ArticleId>
    var created: map<Day, nat>
    var stats: Stats
    /** The creation days of all articles deleted so far. */
    ghost var gone: multiset<Day>

    constructor ()
      ensures Tables() == Db(map[], map[]) && Consistent() && gone == multiset{}
    {
      articles, children, created := map[], map[], map[];
      stats := Stats([], map[], map[], map[]);
      gone := multiset{};
      new;
      assert BagOf(created) == multiset{};
      assert DayBag(articles) == multiset{};
    }

    ghost function Tables(): Db
      reads this
    {
      Db(articles, children)
    }

    /** References are intact, and all counts agree: no counter lags and no recorded cycle failed on the way. */
    ghost predicate Consistent()
      reads this
    {
      && NoDangling(Tables()) && Balanced(created, articles, gone) && RollupsAgree(stats)
      && |gone| == AllDeleted(stats.cycles)
    }

    /** Stores a new article and bumps the counter of `today`. */
    method Create(id: ArticleId, article: Article, today: Day)
      requires id !in articles && article.duplicateOf.None? && NoDangling(Tables())
      modifies this
      ensures NoDangling(Tables()) && gone == old(gone) && children == old(children) && stats == old(stats)
      ensures articles == old(articles)[id := article]
      ensures created == old(created)[today := Get(old(created), today) + 1]
      ensures old(Consistent()) && today == DayOf(article.createdAt) ==> Consistent()
    {
      hide DayBag, BagOf, RollupsAgree, Balanced;
      if Balanced(created, articles, gone) && today == DayOf(article.createdAt) {
        CreateKeepsBalance(created, articles, gone, id, article);
      }
      articles := articles[id := article];
      created := created[today := Get(created, today) + 1];
    }

    /** Stores a dependent row of a stored article. */
    method AddChild(row: ChildKey, id: ArticleId)
      requires id in articles && row !in children && NoDangling(Tables())
      modifies `children
      ensures NoDangling(Tables()) && children == old(children)[row := id]
      ensures old(Consistent()) ==> Consistent()
    {
      hide RollupsAgree, Balanced;
      children := children[row := id];
    }

    /** The semantic stage marks an article as a duplicate of another stored one. */
    method MarkDuplicate(id: ArticleId, of: ArticleId)
      requires id in articles && of in articles && NoDangling(Tables())
      modifies `articles
      ensures articles == old(articles)[id := old(articles)[id].(duplicateOf := Some(of))]
      ensures NoDangling(Tables()) && (old(Consistent()) ==> Consistent())
    {
      hide DayBag, BagOf, RollupsAgree;
      DayBagSame(articles, articles[id := articles[id].(duplicateOf := Some(of))]);
      articles := articles[id := articles[id].(duplicateOf := Some(of))];
    }

    /** Raises each day's counter to the number of live articles: with balanced counters, nothing to raise. */
    method SyncDailyStats()
      modifies this
      ensures articles == old(articles) && children == old(children) && stats == old(stats) && gone == old(gone)
      ensures forall d: Day ::
        Get(created, d) == Larger(Get(old(created), d), DayBag(articles)[d])
      ensures old(Consistent()) ==> Consistent() && created == old(created)
    {
      hide DayBag, BagOf, Balanced, RollupsAgree, NoDangling;
      ghost var bag := DayBag(articles);
      var ids := articles.Keys;
      var days := set id | id in ids :: DayOf(articles[id].createdAt);
      forall d: Day ensures d in days <==> bag[d] > 0 {
        DayIsLive(articles, d);
      }
      var left := days;
      while left != {}
        invariant articles == old(articles) && children == old(children) && stats == old(stats) && gone == old(gone)
        invariant left <= days
        invariant forall d: Day ::
          Get(created, d) == if d in left || Get(old(created), d) >= bag[d] then Get(old(created), d) else bag[d]
        invariant Balanced(old(created), articles, gone) ==> created == old(created)
        decreases |left|
      {
        var d :| d in left;
        var live := CountLive(d);
        if Get(created, d) < live || d !in created {
          if Balanced(old(created), articles, gone) {
            LiveNeverExceedsCounter(old(created), articles, gone, d);
          }
          created := created[d := live];
        }
        left := left - {d};
      }
    }

    /** `count(*)` of one day. */
    method CountLive(day: Day) returns (live: nat)
      ensures live == DayBag(articles)[day]
    {
      live := 0;
      var rest := articles;
      while |rest| > 0
        invariant live + DayBag(rest)[day] == DayBag(articles)[day]
        decreases |rest|
      {
        var id :| id in rest;
        DayBagRemove(rest, id);
        if DayOf(rest[id].createdAt) == day {
          live := live + 1;
        }
        assert (rest - {id}).Keys == rest.Keys - {id};
        rest := rest - {id};
      }
    }

    /**
     * One batch: detach references, delete child rows, delete the articles. Every other article stays as it
     * is but for a reference into the batch, and keeps all its child rows.
     */
    method DeleteBatch(ids: seq<ArticleId>)
      modifies `articles, `children
      ensures Tables() == Without(old(Tables()), Elements(ids))
      ensures forall id: ArticleId :: id in articles <==> id in old(articles) && id !in ids
      ensures forall id: ArticleId :: id in articles ==>
        var was := old(articles)[id];
        articles[id] == was.(duplicateOf :=
          if was.duplicateOf.Some? && was.duplicateOf.value in ids then None else was.duplicateOf)
      ensures forall c: ChildKey :: c in children <==> c in old(children) && old(children)[c] !in ids
      ensures forall c: ChildKey :: c in children ==> children[c] == old(children)[c]
    {
      var doomed := set id | id in ids;
      articles := map id | id in articles :: Detached(articles[id], doomed);
      children := map c | c in children && children[c] !in doomed :: children[c];
      articles := articles - doomed;
    }

    /**
     * Persists a cycle and adds it to every roll-up: its day's row and breakdowns grow by it, key by key, and
     * no other day changes. The sums go on agreeing exactly when the cycle's own do.
     */
    method RecordPurgeCycle(c: Cycle)
      modifies `stats
      ensures IsRecorded(old(stats), c, stats)
      ensures AllDeleted(stats.cycles) == AllDeleted(old(stats).cycles) + c.deleted
      ensures old(Ledger(stats)) ==> Ledger(stats)
      ensures old(RollupsAgree(stats)) ==> (RollupsAgree(stats) <==> SumsAgree(c.deleted, c.byLanguage, c.bySource))
    {
      hide RollupsAgree, Ledger, SumsAgree, IsSum, IsTableSum, AllDeleted, Get;
      var before := stats;
      var row := RowOf(before.daily, c.day);
      var byLanguage := MergeCounts(row.byLanguage, c.byLanguage);
      var bySource := MergeCounts(row.bySource, c.bySource);
      var languages := AddToTable(before.languages, c.day, c.byLanguage);
      var sources := AddToTable(before.sources, c.day, c.bySource);
      stats := Stats(before.cycles + [c],
                     before.daily[c.day := DailyRow(row.deleted + c.deleted, row.cycles + 1, byLanguage, bySource)],
                     languages, sources);
      OneMoreCycle(before.cycles, c);
      if Ledger(before) {
        RecordKeepsLedger(before, c, stats);
      }
      if RollupsAgree(before) {
        RecordKeepsRollups(before, c, stats);
      }
    }

    /**
     * A run, which an exception may cut short. It deletes exactly the oldest expired articles, at most
     * `batchSize` per commit, with their child rows, clears references to them and changes nothing else; it
     * commits one nonempty batch of the then oldest at a time, never a dangling reference; and it records a
     * cycle. A completed run deletes the oldest `min(expired, batchSize * maxBatches)`.
     *
     * The cycle's breakdowns count the articles `counted`, which are the deleted ones and a tallied batch that
     * was rolled back; its total misses a batch that was committed just before the exception. Counts that
     * agreed before go on agreeing exactly when the total is the number of articles counted, that is, when the
     * run completes or fails before it tallies a batch.
     */
    method PurgeExpiredArticles(cutoff: Seconds, batchSize: nat, maxBatches: nat, finishDay: Day, crash: Option<Crash>)
      returns (total: nat, completed: bool, ghost deleted: seq<ArticleId>, ghost counted: seq<ArticleId>,
               ghost commits: seq<Db>)
      requires NoDangling(Tables())
      modifies this
      ensures forall id: ArticleId :: id in articles <==> id in old(articles) && id !in deleted
      ensures forall id: ArticleId :: id in articles ==>
        var was := old(articles)[id];
        articles[id] == was.(duplicateOf :=
          if was.duplicateOf.Some? && was.duplicateOf.value in deleted then None else was.duplicateOf)
      ensures forall c: ChildKey :: c in children <==> c in old(children) && old(children)[c] in articles
      ensures forall c: ChildKey :: c in children ==> children[c] == old(children)[c]
      ensures forall i :: 0 <= i < |deleted| ==>
        deleted[i] in old(articles) && old(articles)[deleted[i]].createdAt < cutoff
      ensures forall i, id: ArticleId :: 0 <= i < |deleted| && id in articles ==>
        old(articles)[deleted[i]].createdAt <= articles[id].createdAt
      ensures |deleted| <= maxBatches * batchSize
      ensures completed && |deleted| < maxBatches * batchSize ==>
        forall id: ArticleId :: id in articles ==> articles[id].createdAt >= cutoff
      ensures NoDangling(Tables()) && Tables() == Without(old(Tables()), Elements(deleted))
      ensures IsCommitLog(old(Tables()), Tables(), cutoff, batchSize, commits)
      ensures IsPurgeSet(old(Tables()), cutoff, Most(|commits| - 1, batchSize), Elements(deleted))
      ensures completed ==> IsPurgeSet(old(Tables()), cutoff, Most(maxBatches, batchSize), Elements(deleted))
      ensures crash.None? ==> completed
      ensures completed ==> total == |deleted| && counted == deleted
      ensures total <= |deleted| == |Elements(deleted)| && deleted <= counted
      ensures !completed ==> (total == |counted| <==> crash.value.point.BeforeTally?)
      ensures forall i :: 0 <= i < |counted| ==> counted[i] in old(articles)
      ensures forall d: Day :: Get(created, d) == Larger(Get(old(created), d), DayBag(old(articles))[d])
      ensures gone == old(gone) + DaysOf(old(articles), deleted)
      ensures |stats.cycles| == |old(stats).cycles| + 1
      ensures var cycle := stats.cycles[|old(stats).cycles|];
        && IsRecorded(old(stats), cycle, stats)
        && cycle.day == finishDay && cycle.completed == completed && cycle.deleted == total
        && (completed ==> |commits| == cycle.batches + 1)
        && (forall k: string ::
              Get(cycle.byLanguage, k) == |set i | 0 <= i < |counted| && old(articles)[counted[i]].language == k|)
        && (forall k: string ::
              Get(cycle.bySource, k) == |set i | 0 <= i < |counted| && old(articles)[counted[i]].source == k|)
      ensures old(Ledger(stats)) ==> Ledger(stats)
      ensures old(Consistent()) ==> created == old(created) && (Consistent() <==> total == |counted|)
    {
      hide Progress, IsCommitLog, Balanced, RollupsAgree, Ledger, NoDangling, Without, IsPurgeSet, DaysOf, BagOf,
        DayBag,
        Elements, SumsAgree, IsRecorded, Accounted, Most, Languages, Sources, AllDeleted, Larger, Total;
      SyncDailyStats();
      ghost var before := Tables();
      var batches, byLanguage, bySource;
      total, batches, completed, byLanguage, bySource, deleted, counted, commits :=
        PurgeBatches(cutoff, batchSize, maxBatches, crash);
      DeletedSizes(before, deleted, Tables());
      AccountsAgree(before, counted, byLanguage, bySource);
      if Balanced(created, before.articles, gone) {
        BookDeletions(before, deleted, Tables(), created, gone);
      }
      gone := gone + DaysOf(before.articles, deleted);
      var cycle := Cycle(finishDay, completed, total, batches, byLanguage, bySource);
      RecordPurgeCycle(cycle);
      RecordedLast(old(stats), cycle, stats);
      TotalDecides(total, |counted|, byLanguage, bySource);
      MostIsProduct(|commits| - 1, maxBatches, batchSize);
      RowsLeft(before, deleted, Tables());
      DeletedAreOldest(before, cutoff, Most(|commits| - 1, batchSize), deleted, Tables());
      if completed {
        DeletedAreOldest(before, cutoff, Most(maxBatches, batchSize), deleted, Tables());
      }
      TalliesMean(before, counted, byLanguage, bySource);
    }

    /** The batches of a run, up to its end or an exception. */
    method PurgeBatches(cutoff: Seconds, batchSize: nat, maxBatches: nat, crash: Option<Crash>)
      returns (total: nat, batches: nat, completed: bool, byLanguage: map<string, nat>, bySource: map<string, nat>,
               ghost deleted: seq<ArticleId>, ghost counted: seq<ArticleId>, ghost commits: seq<Db>)
      requires NoDangling(Tables())
      modifies `articles, `children
      ensures Progress(old(Tables()), deleted, Tables()) && Tables() == Without(old(Tables()), Elements(deleted))
      ensures IsCommitLog(old(Tables()), Tables(), cutoff, batchSize, commits) && commits != []
      ensures IsPurgeSet(old(Tables()), cutoff, Most(|commits| - 1, batchSize), Elements(deleted))
      ensures |commits| - 1 <= maxBatches
      ensures completed ==> IsPurgeSet(old(Tables()), cutoff, Most(maxBatches, batchSize), Elements(deleted))
      ensures Accounted(old(Tables()), counted, byLanguage, bySource)
      ensures crash.None? ==> completed
      ensures completed ==> total == |deleted| && counted == deleted && |commits| == batches + 1
      ensures total <= |deleted| && deleted <= counted
      ensures !completed ==> (total == |counted| <==> crash.value.point.BeforeTally?)
    {
      hide Progress, IsCommitLog, NoDangling, Without, IsPurgeSet, Elements, IsSum, IsOldest, Accounted, Tally, Most,
        Languages, Sources;
      total, batches, completed, byLanguage, bySource := 0, 0, true, map[], map[];
      deleted, counted, commits := [], [], [Tables()];
      ghost var before := Tables();
      NothingDeletedYet(before, cutoff, batchSize);
      MostGrows(0, 1, batchSize);
      for n := 0 to maxBatches
        invariant Progress(before, deleted, Tables())
        invariant IsCommitLog(before, Tables(), cutoff, batchSize, commits) && |commits| == batches + 1 == n + 1
        invariant IsPurgeSet(before, cutoff, Most(n, batchSize), Elements(deleted))
        invariant total == |deleted| && counted == deleted && completed
        invariant Accounted(before, counted, byLanguage, bySource)
      {
        if crash == Some(Crash(n, BeforeTally)) {
          completed := false;
          break;
        }
        ProgressMeans(before, deleted, Tables());
        var ids := SelectOldest(cutoff, batchSize);
        BatchExtendsPurge(before, cutoff, Most(n, batchSize), Elements(deleted), batchSize, ids);
        MostGrows(n, maxBatches, batchSize);
        if ids == [] {
          NothingLeft(before, cutoff, Most(n, batchSize), Elements(deleted), batchSize, Most(maxBatches, batchSize));
          break;
        }
        ghost var mid, languages, sources := Tables(), byLanguage, bySource;
        OldestAreStored(articles, cutoff, batchSize, ids);
        byLanguage := MergeCounts(byLanguage, Tally(Languages(articles, ids)));
        bySource := MergeCounts(bySource, Tally(Sources(articles, ids)));
        BatchAccounted(before, deleted, ids, mid, languages, sources, byLanguage, bySource);
        counted := deleted + ids;
        if crash == Some(Crash(n, BeforeCommit)) {
          completed := false;
          break;
        }
        DeleteBatch(ids);
        ProgressExtends(before, deleted, ids, mid, Tables());
        CommitLogGrows(before, mid, cutoff, batchSize, commits, ids, Tables());
        deleted, commits := deleted + ids, commits + [Tables()];
        if crash == Some(Crash(n, AfterCommit)) {
          completed := false;
          break;
        }
        batches := batches + 1;
        total := total + |ids|;
      }
      ProgressMeans(before, deleted, Tables());
    }

    /** The batch query. */
    method SelectOldest(cutoff: Seconds, limit: nat) returns (ids: seq<ArticleId>)
      ensures IsOldest(articles, cutoff, limit, ids)
    {
      ghost var found := OldestExist(articles, cutoff, limit, Expired(articles, cutoff));
      OldestFromPool(articles, cutoff, limit, found);
      ids :| IsOldest(articles, cutoff, limit, ids);
    }
  }

  /**
   * In every state the operations can reach, articles created equal live plus deleted: day by day, and in
   * total with the deleted ones as the recorded purge cycles count them.
   */
  lemma CreatedIsLivePlusDeleted(db: RetentionDb)
    requires db.Consistent()
    ensures forall day: Day :: Get(db.created, day) == DayBag(db.articles)[day] + db.gone[day]
    ensures Total(db.created) == |db.articles| + AllDeleted(db.stats.cycles)
  {
    hide RollupsAgree, NoDangling;
    DayBagSize(db.articles);
    forall day: Day ensures Get(db.created, day) == DayBag(db.articles)[day] + db.gone[day] {
      assert Get(db.created, day) == BagOf(db.created)[day];
    }
  }

  function Languages(articles: map<ArticleId, Article>, ids: seq<ArticleId>): seq<string>
    requires forall i :: 0 <= i < |ids| ==> ids[i] in articles
  {
    seq(|ids|, i requires 0 <= i < |ids| => articles[ids[i]].language)
  }

  function Sources(articles: map<ArticleId, Article>, ids: seq<ArticleId>): seq<string>
    requires forall i :: 0 <= i < |ids| ==> ids[i] in articles
  {
    seq(|ids|, i requires 0 <= i < |ids| => articles[ids[i]].source)
  }

  // ---------- Bookkeeping of a purge ----------

  /** `now` is `before` without `deleted`. */
  ghost predicate Progress(before: Db, deleted: seq<ArticleId>, now: Db) {
    && now == Without(before, Elements(deleted))
    && (forall i :: 0 <= i < |deleted| ==> deleted[i] in before.articles)
    && (forall i, j :: 0 <= i < j < |deleted| ==> deleted[i] != deleted[j])
    && NoDangling(before)
  }

  lemma ProgressMeans(before: Db, deleted: seq<ArticleId>, now: Db)
    requires Progress(before, deleted, now)
    ensures now == Without(before, Elements(deleted))
  {
  }

  /** One commit of the loop: a nonempty batch of the oldest expired articles is gone. */
  ghost predicate IsBatchCommit(before: Db, after: Db, cutoff: Seconds, batchSize: nat) {
    exists ids: seq<ArticleId> ::
      ids != [] && IsOldest(before.articles, cutoff, batchSize, ids) && after == Without(before, Elements(ids))
  }

  /** The committed states of a run, from `before` to `now`: one batch apart each, references always intact. */
  ghost predicate IsCommitLog(before: Db, now: Db, cutoff: Seconds, batchSize: nat, commits: seq<Db>) {
    && commits != [] && commits[0] == before && commits[|commits| - 1] == now
    && (forall i :: 0 <= i < |commits| ==> NoDangling(commits[i]))
    && (forall i :: 0 <= i < |commits| - 1 ==> IsBatchCommit(commits[i], commits[i + 1], cutoff, batchSize))
  }

  lemma CommitLogGrows(
      before: Db, mid: Db, cutoff: Seconds, batchSize: nat, commits: seq<Db>, ids: seq<ArticleId>, now: Db)
    requires IsCommitLog(before, mid, cutoff, batchSize, commits)
    requires ids != [] && IsOldest(mid.articles, cutoff, batchSize, ids) && now == Without(mid, Elements(ids))
    ensures IsCommitLog(before, now, cutoff, batchSize, commits + [now])
  {
    WithoutKeepsReferences(mid, Elements(ids));
    hide NoDangling, Without, IsOldest;
    assert IsBatchCommit(mid, now, cutoff, batchSize);
    hide IsBatchCommit;
    var after := commits + [now];
    forall i | 0 <= i < |after| - 1 ensures IsBatchCommit(after[i], after[i + 1], cutoff, batchSize) {
      if i < |commits| - 1 {
        assert IsBatchCommit(commits[i], commits[i + 1], cutoff, batchSize);
      }
    }
  }

  /** The counters hold one unit per deleted article, under its language and under its source. */
  ghost predicate Accounted(
      before: Db, deleted: seq<ArticleId>, byLanguage: map<string, nat>, bySource: map<string, nat>)
  {
    && (forall i :: 0 <= i < |deleted| ==> deleted[i] in before.articles)
    && BagOf(byLanguage) == multiset(Languages(before.articles, deleted))
    && BagOf(bySource) == multiset(Sources(before.articles, deleted))
  }

  lemma BatchAccounted(before: Db, deleted: seq<ArticleId>, ids: seq<ArticleId>, mid: Db,
                       languages: map<string, nat>, sources: map<string, nat>,
                       languages': map<string, nat>, sources': map<string, nat>)
    requires Progress(before, deleted, mid) && Accounted(before, deleted, languages, sources)
    requires forall i :: 0 <= i < |ids| ==> ids[i] in mid.articles
    requires IsSum(languages', languages, Tally(Languages(mid.articles, ids)))
    requires IsSum(sources', sources, Tally(Sources(mid.articles, ids)))
    ensures Accounted(before, deleted + ids, languages', sources')
  {
    hide IsSum, BagOf;
    KeysExtend(before, deleted, ids, mid);
    hide Languages, Sources, Progress;
    CountsExtend(languages', languages, Languages(before.articles, deleted), Languages(mid.articles, ids));
    CountsExtend(sources', sources, Sources(before.articles, deleted), Sources(mid.articles, ids));
  }

  lemma AccountsAgree(before: Db, deleted: seq<ArticleId>, byLanguage: map<string, nat>, bySource: map<string, nat>)
    requires Accounted(before, deleted, byLanguage, bySource)
    ensures SumsAgree(|deleted|, byLanguage, bySource)
    ensures forall i :: 0 <= i < |deleted| ==> deleted[i] in before.articles
    ensures BagOf(byLanguage) == multiset(Languages(before.articles, deleted))
    ensures BagOf(bySource) == multiset(Sources(before.articles, deleted))
  {
  }

  lemma NothingDeletedYet(db: Db, cutoff: Seconds, batchSize: nat)
    requires NoDangling(db)
    ensures Progress(db, [], db) && IsCommitLog(db, db, cutoff, batchSize, [db])
    ensures IsPurgeSet(db, cutoff, 0, Elements([])) && Accounted(db, [], map[], map[])
  {
    assert BagOf<string>(map[]) == multiset{};
    assert Without(db, Elements([])) == db;
  }

  /** The most articles that `batches` batches can delete. */
  function Most(batches: nat, size: nat): nat {
    batches * size
  }

  lemma MostGrows(n: nat, max: nat, size: nat)
    requires n < max
    ensures Most(0, size) == 0 && Most(n, size) <= Most(max, size) && Most(n + 1, size) == Most(n, size) + size
    ensures size == 0 ==> Most(max, size) == 0
  {
  }

  /** What the sets of a purge mean for every single row. */
  lemma DeletedAreOldest(before: Db, cutoff: Seconds, limit: nat, deleted: seq<ArticleId>, now: Db)
    requires Progress(before, deleted, now) && IsPurgeSet(before, cutoff, limit, Elements(deleted))
    ensures forall i :: 0 <= i < |deleted| ==>
      deleted[i] in before.articles && before.articles[deleted[i]].createdAt < cutoff
    ensures forall i, id: ArticleId :: 0 <= i < |deleted| && id in now.articles ==>
      before.articles[deleted[i]].createdAt <= now.articles[id].createdAt
    ensures |deleted| <= limit
    ensures |deleted| < limit ==> forall id: ArticleId :: id in now.articles ==> now.articles[id].createdAt >= cutoff
  {
    DistinctElements(deleted);
    WhatAPurgeLeaves(before, cutoff, limit, Elements(deleted));
    ShortOfQuota(before, cutoff, limit, Elements(deleted));
    forall i | 0 <= i < |deleted|
      ensures deleted[i] in Elements(deleted) && deleted[i] in Expired(before.articles, cutoff)
    {
    }
    hide IsPurgeSet, OldestFirst;
  }

  lemma MostIsProduct(batches: nat, max: nat, size: nat)
    requires batches <= max
    ensures Most(max, size) == max * size && Most(batches, size) <= max * size
  {
    assert (max - batches) * size >= 0;
  }

  lemma RowsLeft(before: Db, deleted: seq<ArticleId>, now: Db)
    requires Progress(before, deleted, now)
    ensures forall id: ArticleId :: id in now.articles <==> id in before.articles && id !in deleted
    ensures forall id: ArticleId :: id in now.articles ==>
      var was := before.articles[id];
      now.articles[id] == was.(duplicateOf :=
        if was.duplicateOf.Some? && was.duplicateOf.value in deleted then None else was.duplicateOf)
    ensures forall c: ChildKey :: c in now.children <==> c in before.children && before.children[c] in now.articles
    ensures forall c: ChildKey :: c in now.children ==> now.children[c] == before.children[c]
  {
  }

  lemma ShortOfQuota(db: Db, cutoff: Seconds, limit: nat, gone: set<ArticleId>)
    ensures IsPurgeSet(db, cutoff, limit, gone) && |gone| < limit ==> gone == Expired(db.articles, cutoff)
  {
    if IsPurgeSet(db, cutoff, limit, gone) && |gone| < limit {
      assert |Expired(db.articles, cutoff) - gone| == |Expired(db.articles, cutoff)| - |gone| == 0;
    }
  }

  /** The breakdowns count the articles of each language and of each source. */
  lemma TalliesMean(before: Db, counted: seq<ArticleId>, byLanguage: map<string, nat>, bySource: map<string, nat>)
    requires Accounted(before, counted, byLanguage, bySource)
    ensures forall i :: 0 <= i < |counted| ==> counted[i] in before.articles
    ensures forall k: string ::
      Get(byLanguage, k) == |set i | 0 <= i < |counted| && before.articles[counted[i]].language == k|
    ensures forall k: string ::
      Get(bySource, k) == |set i | 0 <= i < |counted| && before.articles[counted[i]].source == k|
  {
    LanguageTally(before.articles, counted, byLanguage);
    SourceTally(before.articles, counted, bySource);
  }

  lemma LanguageTally(articles: map<ArticleId, Article>, ids: seq<ArticleId>, counts: map<string, nat>)
    requires forall i :: 0 <= i < |ids| ==> ids[i] in articles
    requires BagOf(counts) == multiset(Languages(articles, ids))
    ensures forall k: string :: Get(counts, k) == |set i | 0 <= i < |ids| && articles[ids[i]].language == k|
  {
    var keys := Languages(articles, ids);
    forall k: string ensures Get(counts, k) == |set i | 0 <= i < |ids| && articles[ids[i]].language == k| {
      Occurrences(keys, k);
      assert Get(counts, k) == BagOf(counts)[k];
      assert (set i | 0 <= i < |keys| && keys[i] == k) == (set i | 0 <= i < |ids| && articles[ids[i]].language == k);
    }
  }

  lemma SourceTally(articles: map<ArticleId, Article>, ids: seq<ArticleId>, counts: map<string, nat>)
    requires forall i :: 0 <= i < |ids| ==> ids[i] in articles
    requires BagOf(counts) == multiset(Sources(articles, ids))
    ensures forall k: string :: Get(counts, k) == |set i | 0 <= i < |ids| && articles[ids[i]].source == k|
  {
    var keys := Sources(articles, ids);
    forall k: string ensures Get(counts, k) == |set i | 0 <= i < |ids| && articles[ids[i]].source == k| {
      Occurrences(keys, k);
      assert Get(counts, k) == BagOf(counts)[k];
      assert (set i | 0 <= i < |keys| && keys[i] == k) == (set i | 0 <= i < |ids| && articles[ids[i]].source == k);
    }
  }

  lemma {:induction false} Occurrences(keys: seq<string>, k: string)
    ensures multiset(keys)[k] == |set i | 0 <= i < |keys| && keys[i] == k|
  {
    if keys != [] {
      var front, last := keys[..|keys| - 1], |keys| - 1;
      Occurrences(front, k);
      assert keys == front + [keys[last]];
      var before := set i | 0 <= i < |front| && front[i] == k;
      assert (set i | 0 <= i < |keys| && keys[i] == k) == if keys[last] == k then before + {last} else before;
    }
  }

  lemma NothingLeft(db: Db, cutoff: Seconds, limit: nat, gone: set<ArticleId>, batchSize: nat, quota: nat)
    requires IsPurgeSet(db, cutoff, limit, gone) && limit <= quota
    requires if batchSize > 0 then gone == Expired(db.articles, cutoff) else quota == 0
    ensures IsPurgeSet(db, cutoff, quota, gone)
  {
  }

  lemma OldestFromPool(articles: map<ArticleId, Article>, cutoff: Seconds, limit: nat, ids: seq<ArticleId>)
    requires var pool := Expired(articles, cutoff);
      && (forall i, j :: 0 <= i < j < |ids| ==> ids[i] != ids[j])
      && |ids| == Min(|pool|, limit) && Elements(ids) <= pool
      && OldestFirst(articles, Elements(ids), pool)
    ensures IsOldest(articles, cutoff, limit, ids)
  {
    forall i | 0 <= i < |ids| ensures ids[i] in Expired(articles, cutoff) {
      assert ids[i] in Elements(ids);
    }
  }

  lemma OldestAreStored(articles: map<ArticleId, Article>, cutoff: Seconds, limit: nat, ids: seq<ArticleId>)
    requires IsOldest(articles, cutoff, limit, ids)
    ensures forall i :: 0 <= i < |ids| ==> ids[i] in articles
    ensures forall i, j :: 0 <= i < j < |ids| ==> ids[i] != ids[j]
  {
  }

  lemma ProgressExtends(before: Db, deleted: seq<ArticleId>, ids: seq<ArticleId>, mid: Db, now: Db)
    requires Progress(before, deleted, mid) && now == Without(mid, Elements(ids))
    requires forall i :: 0 <= i < |ids| ==> ids[i] in mid.articles
    requires forall i, j :: 0 <= i < j < |ids| ==> ids[i] != ids[j]
    ensures Progress(before, deleted + ids, now)
    ensures Elements(deleted + ids) == Elements(deleted) + Elements(ids)
  {
    assert Elements(deleted + ids) == Elements(deleted) + Elements(ids);
    WithoutTwice(before, Elements(deleted), Elements(ids));
    forall i | 0 <= i < |ids| ensures ids[i] in before.articles && ids[i] !in Elements(deleted) {
      assert ids[i] in mid.articles;
    }
    hide Without, NoDangling;
    forall i, j | 0 <= i < j < |deleted + ids| ensures (deleted + ids)[i] != (deleted + ids)[j] {
      if i < |deleted| <= j {
        assert deleted[i] in Elements(deleted);
      }
    }
  }

  /** Deleting articles around a row changes neither its language nor its source. */
  lemma KeysExtend(before: Db, deleted: seq<ArticleId>, ids: seq<ArticleId>, mid: Db)
    requires Progress(before, deleted, mid)
    requires forall i :: 0 <= i < |ids| ==> ids[i] in mid.articles
    ensures forall i :: 0 <= i < |deleted + ids| ==> (deleted + ids)[i] in before.articles
    ensures Languages(before.articles, deleted + ids)
      == Languages(before.articles, deleted) + Languages(mid.articles, ids)
    ensures Sources(before.articles, deleted + ids) == Sources(before.articles, deleted) + Sources(mid.articles, ids)
  {
    KeysKept(before, mid, Elements(deleted), ids);
    hide Progress, Without, Detached, Languages, Sources;
    AllStored(before.articles, deleted, ids);
    LanguagesAppend(before.articles, deleted, mid.articles, ids);
    SourcesAppend(before.articles, deleted, mid.articles, ids);
  }

  lemma KeysKept(before: Db, mid: Db, gone: set<ArticleId>, ids: seq<ArticleId>)
    requires mid == Without(before, gone) && forall i :: 0 <= i < |ids| ==> ids[i] in mid.articles
    ensures forall i :: 0 <= i < |ids| ==>
      && ids[i] in before.articles
      && mid.articles[ids[i]].language == before.articles[ids[i]].language
      && mid.articles[ids[i]].source == before.articles[ids[i]].source
  {
  }

  lemma AllStored(articles: map<ArticleId, Article>, a: seq<ArticleId>, b: seq<ArticleId>)
    requires forall i :: 0 <= i < |a| ==> a[i] in articles
    requires forall i :: 0 <= i < |b| ==> b[i] in articles
    ensures forall i :: 0 <= i < |a + b| ==> (a + b)[i] in articles
  {
  }

  lemma LanguagesAppend(
      articles: map<ArticleId, Article>, a: seq<ArticleId>, later: map<ArticleId, Article>, b: seq<ArticleId>)
    requires forall i :: 0 <= i < |a + b| ==> (a + b)[i] in articles
    requires forall i :: 0 <= i < |a| ==> a[i] in articles
    requires forall i :: 0 <= i < |b| ==>
      b[i] in articles && b[i] in later && later[b[i]].language == articles[b[i]].language
    ensures Languages(articles, a + b) == Languages(articles, a) + Languages(later, b)
  {
    forall i | 0 <= i < |a + b|
      ensures Languages(articles, a + b)[i] == (Languages(articles, a) + Languages(later, b))[i]
    {
      assert (a + b)[i] == if i < |a| then a[i] else b[i - |a|];
    }
  }

  lemma SourcesAppend(
      articles: map<ArticleId, Article>, a: seq<ArticleId>, later: map<ArticleId, Article>, b: seq<ArticleId>)
    requires forall i :: 0 <= i < |a + b| ==> (a + b)[i] in articles
    requires forall i :: 0 <= i < |a| ==> a[i] in articles
    requires forall i :: 0 <= i < |b| ==>
      b[i] in articles && b[i] in later && later[b[i]].source == articles[b[i]].source
    ensures Sources(articles, a + b) == Sources(articles, a) + Sources(later, b)
  {
    forall i | 0 <= i < |a + b|
      ensures Sources(articles, a + b)[i] == (Sources(articles, a) + Sources(later, b))[i]
    {
      assert (a + b)[i] == if i < |a| then a[i] else b[i - |a|];
    }
  }

  lemma CountsExtend(after: map<string, nat>, before: map<string, nat>, counted: seq<string>, more: seq<string>)
    requires IsSum(after, before, Tally(more)) && BagOf(before) == multiset(counted)
    ensures BagOf(after) == multiset(counted + more)
  {
    SumAddsTotals(after, before, Tally(more));
    TallyCounts(more);
  }

  lemma DeletedSizes(before: Db, deleted: seq<ArticleId>, now: Db)
    requires Progress(before, deleted, now)
    ensures |Elements(deleted)| == |deleted| == |DaysOf(before.articles, deleted)| && NoDangling(now)
    ensures forall i :: 0 <= i < |deleted| ==> deleted[i] in before.articles
  {
    hide DayBag, DaysOf, BagOf, Without, NoDangling;
    DistinctElements(deleted);
    DayBagRemoveAll(before.articles, deleted);
    WithoutKeepsReferences(before, Elements(deleted));
  }

  /** Moving the deleted articles from live to gone keeps the daily counters in balance. */
  lemma BookDeletions(before: Db, deleted: seq<ArticleId>, now: Db, created: map<Day, nat>, gone: multiset<Day>)
    requires Progress(before, deleted, now) && Balanced(created, before.articles, gone)
    ensures Balanced(created, now.articles, gone + DaysOf(before.articles, deleted))
  {
    hide DayBag, DaysOf, BagOf, Without, NoDangling;
    DayBagRemoveAll(before.articles, deleted);
    DayBagWithout(before, Elements(deleted));
  }

  lemma DayBagWithout(db: Db, gone: set<ArticleId>)
    ensures DayBag(Without(db, gone).articles) == DayBag(db.articles - gone)
  {
    hide DayBag, DayOf;
    assert Without(db, gone).articles.Keys == (db.articles - gone).Keys;
    DayBagSame(Without(db, gone).articles, db.articles - gone);
  }
}
