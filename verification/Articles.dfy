/** Article persistence: create, update with a version snapshot, leave unchanged, or refuse as a duplicate. */
module Articles {
  import opened Wrappers
  import opened SimHash
  import opened Dedup

  type DateTime = int

  /** A cleaned extraction. */
  datatype Cleaned = Cleaned(
    title: string, body: string, subtitle: Option<string>, author: Option<string>, category: Option<string>,
    summary: Option<string>, publishedAt: Option<DateTime>, updatedAt: Option<DateTime>,
    imageUrls: seq<string>, tags: seq<string>, wordCount: nat, contentHash: string)

  datatype Article = Article(
    canonicalUrl: string, title: string, body: string, subtitle: Option<string>, author: Option<string>,
    category: Option<string>, summary: Option<string>, publishedAt: Option<DateTime>, updatedAtSource: Option<DateTime>,
    imageUrls: seq<string>, tags: seq<string>, wordCount: nat, contentHash: string, simhash: int, currentVersion: nat)

  datatype Flags = Flags(title: bool, body: bool, author: bool, publishedAt: bool, category: bool, metadata: bool)

  const NO_FLAGS := Flags(false, false, false, false, false, false)

  datatype Snapshot = Snapshot(
    contentHash: string, title: string, subtitle: Option<string>, author: Option<string>, category: Option<string>,
    publishedAt: Option<DateTime>, body: string)

  datatype Version = Version(snapshot: Snapshot, flags: Flags)

  /** The unique key of the version table. */
  datatype VersionKey = VersionKey(article: ArticleId, version: nat)

  datatype Store = Store(articles: map<ArticleId, Article>, versions: map<VersionKey, Version>)

  /** The two digests, and the threshold of the duplicate lookup. */
  datatype Config = Config(
    identityHash: (string, Option<string>, Option<DateTime>, string) -> string,
    articleHash: (string, string) -> int,
    threshold: int)
  {
    predicate Accepted() {
      Configure(threshold).Success?
    }

    /** Cleaning computes the content hash from title, author, publication time and body alone. */
    predicate Hashes(c: Cleaned) {
      c.contentHash == identityHash(c.title, c.author, c.publishedAt, c.body)
    }
  }

  /** One call of `persist`, with the id a new row would get and the database's answers to the two queries. */
  datatype Call = Call(
      cleaned: Cleaned, canonicalUrl: string, newId: ArticleId, exact: Option<ArticleId>, answer: seq<ArticleId>)

  datatype PersistResult =
    | Created(id: ArticleId, version: nat)
    | Updated(id: ArticleId, version: nat)
    | Unchanged(id: ArticleId, version: nat)
    | Duplicate(of: Option<ArticleId>, stage: Option<Stage>)

  function NewArticle(c: Cleaned, canonicalUrl: string, simhash: int): Article {
    Article(canonicalUrl, c.title, c.body, c.subtitle, c.author, c.category, c.summary, c.publishedAt, c.updatedAt,
            c.imageUrls, c.tags, c.wordCount, c.contentHash, simhash, 1)
  }

  function SnapshotOf(a: Article): Snapshot {
    Snapshot(a.contentHash, a.title, a.subtitle, a.author, a.category, a.publishedAt, a.body)
  }

  function FingerprintOf(a: Article): Fingerprint {
    Fingerprint(a.contentHash, Some(a.simhash))
  }

  function CorpusOf(articles: map<ArticleId, Article>): Corpus {
    map id | id in articles :: FingerprintOf(articles[id])
  }

  class ArticleService {
    const config: Config
    var articles: map<ArticleId, Article>
    var versions: map<VersionKey, Version>

    constructor (config: Config)
      ensures this.config == config && State() == Store(map[], map[])
    {
      this.config := config;
      articles, versions := map[], map[];
    }

    ghost function State(): Store
      reads this
    {
      Store(articles, versions)
    }

    /** Every call is one step of the relation below, and keeps the version history. */
    method Persist(call: Call) returns (r: PersistResult)
      requires config.Accepted() && config.Hashes(call.cleaned) && History(config, State())
      requires CanStep(config, State(), call)
      modifies this
      ensures Step(config, old(State()), call, State(), r)
      ensures r.Created? ==>
        && r.version == 1 && r.id == call.newId && r.id in articles && articles == old(articles)[r.id := articles[r.id]]
        && IsWritten(config, call.cleaned, articles[r.id])
        && articles[r.id].canonicalUrl == call.canonicalUrl && articles[r.id].currentVersion == 1
      ensures r.Unchanged? || r.Duplicate? ==> State() == old(State())
      ensures History(config, State())
    {
      ghost var before := State();
      hide Step, History, IsVerdict, Matches, LegalExact, LegalAnswer;
      if existing :| existing in articles && articles[existing].canonicalUrl == call.canonicalUrl {
        r := UpdateExisting(existing, call.cleaned);
        UpdateIsStep(config, before, call, existing, State(), r);
        if r.Updated? {
          UpdateKeepsHistory(config, before, call.cleaned, existing, State());
        }
      } else {
        var simhash := config.articleHash(call.cleaned.title, call.cleaned.body);
        var verdict := FindDuplicate(
          CorpusOf(articles), call.cleaned.contentHash, simhash, config.threshold, None, call.exact, call.answer);
        assert forall id: ArticleId :: !IsExisting(before, call, id);
        if verdict.isDuplicate {
          DuplicateIsStep(config, before, call, verdict);
          return Duplicate(verdict.duplicateOf, verdict.stage);
        }
        var article := NewArticle(call.cleaned, call.canonicalUrl, simhash);
        articles := articles[call.newId := article];
        versions := versions[VersionKey(call.newId, 1) := Version(SnapshotOf(article), NO_FLAGS)];
        r := Created(call.newId, 1);
        CreateIsStep(config, before, call, verdict);
        CreateKeepsHistory(config, before, call, State());
      }
    }

    method UpdateExisting(id: ArticleId, c: Cleaned) returns (r: PersistResult)
      requires id in articles
      modifies this
      ensures old(articles)[id].contentHash == c.contentHash ==>
        State() == old(State()) && r == Unchanged(id, articles[id].currentVersion)
      ensures old(articles)[id].contentHash != c.contentHash ==>
        State() == AfterUpdate(config, old(State()), id, c) && r == Updated(id, old(articles)[id].currentVersion + 1)
    {
      var article := articles[id];
      if article.contentHash == c.contentHash {
        return Unchanged(id, article.currentVersion);
      }
      var flags := Flags(
        article.title != c.title, article.body != c.body, article.author != c.author,
        article.publishedAt != c.publishedAt, article.category != c.category,
        article.subtitle != c.subtitle || article.summary != c.summary || article.tags != c.tags
        || article.imageUrls != c.imageUrls);
      article := article.(
        title := c.title, subtitle := c.subtitle, author := c.author, category := c.category,
        publishedAt := c.publishedAt, updatedAtSource := c.updatedAt, body := c.body, summary := c.summary,
        imageUrls := c.imageUrls, tags := c.tags, contentHash := c.contentHash,
        simhash := config.articleHash(c.title, c.body), wordCount := c.wordCount);
      article := article.(currentVersion := article.currentVersion + 1);
      articles := articles[id := article];
      versions := versions[VersionKey(id, article.currentVersion) := Version(SnapshotOf(article), flags)];
      r := Updated(id, article.currentVersion);
    }
  }

  /** Every field of the row comes from the cleaned extraction, and the hash from its title and body. */
  ghost predicate IsWritten(config: Config, c: Cleaned, a: Article) {
    && a.title == c.title && a.body == c.body && a.subtitle == c.subtitle && a.author == c.author
    && a.category == c.category && a.summary == c.summary && a.publishedAt == c.publishedAt
    && a.updatedAtSource == c.updatedAt && a.imageUrls == c.imageUrls && a.tags == c.tags
    && a.wordCount == c.wordCount && a.contentHash == c.contentHash && a.simhash == config.articleHash(c.title, c.body)
  }

  // ---------- The step relation ----------

  ghost predicate IsExisting(s: Store, call: Call, id: ArticleId) {
    id in s.articles && s.articles[id].canonicalUrl == call.canonicalUrl
  }

  /** The row after an update, written as a fresh row with the next version number. */
  ghost function AfterUpdate(config: Config, s: Store, id: ArticleId, c: Cleaned): Store
    requires id in s.articles
  {
    var was := s.articles[id];
    var renewed := NewArticle(c, was.canonicalUrl, config.articleHash(c.title, c.body));
    var now := renewed.(currentVersion := was.currentVersion + 1);
    var metadata := (was.subtitle, was.summary, was.tags, was.imageUrls)
      != (now.subtitle, now.summary, now.tags, now.imageUrls);
    Store(s.articles[id := now],
          s.versions[VersionKey(id, now.currentVersion) :=
            Version(SnapshotOf(now), Diff(SnapshotOf(was), SnapshotOf(now)).(metadata := metadata))])
  }

  /** What an update writes: every field of the one row, and one version that tells what else changed. */
  lemma UpdateMeans(config: Config, s: Store, id: ArticleId, c: Cleaned, s': Store)
    requires id in s.articles && s' == AfterUpdate(config, s, id, c)
    ensures forall other: ArticleId :: other in s'.articles <==> other in s.articles
    ensures forall other: ArticleId :: other in s'.articles && other != id ==> s'.articles[other] == s.articles[other]
    ensures IsWritten(config, c, s'.articles[id]) && s'.articles[id].canonicalUrl == s.articles[id].canonicalUrl
    ensures s'.articles[id].currentVersion == s.articles[id].currentVersion + 1
    ensures var was, key := s.articles[id], VersionKey(id, s.articles[id].currentVersion + 1);
      s'.versions.Keys == s.versions.Keys + {key} && (s'.versions[key].flags.metadata <==>
        was.subtitle != c.subtitle || was.summary != c.summary || was.tags != c.tags || was.imageUrls != c.imageUrls)
  {
  }

  /** Which snapshot fields differ. */
  function Diff(a: Snapshot, b: Snapshot): Flags {
    Flags(a.title != b.title, a.body != b.body, a.author != b.author, a.publishedAt != b.publishedAt,
      a.category != b.category, false)
  }

  ghost predicate CanStep(config: Config, s: Store, call: Call) {
    && call.newId !in s.articles
    && LegalExact(CorpusOf(s.articles), call.cleaned.contentHash, None, call.exact)
    && LegalAnswer(CorpusOf(s.articles), HashOf(config, call), None, call.answer)
  }

  function HashOf(config: Config, call: Call): int {
    config.articleHash(call.cleaned.title, call.cleaned.body)
  }

  ghost predicate Step(config: Config, s: Store, call: Call, s': Store, r: PersistResult) {
    || (exists id: ArticleId :: IsExisting(s, call, id) && UpdateStep(config, s, call.cleaned, id, s', r))
    || ((forall id: ArticleId :: !IsExisting(s, call, id)) && exists verdict: DedupResult ::
          && IsVerdictOn(config, s, call, verdict)
          && if verdict.isDuplicate then s' == s && r == Duplicate(verdict.duplicateOf, verdict.stage)
             else s' == AfterCreate(config, s, call) && r == Created(call.newId, 1))
  }

  lemma UpdateIsStep(config: Config, s: Store, call: Call, id: ArticleId, s': Store, r: PersistResult)
    requires IsExisting(s, call, id) && UpdateStep(config, s, call.cleaned, id, s', r)
    ensures Step(config, s, call, s', r)
  {
  }

  lemma CreateIsStep(config: Config, s: Store, call: Call, verdict: DedupResult)
    requires forall id: ArticleId :: !IsExisting(s, call, id)
    requires !verdict.isDuplicate && IsVerdictOn(config, s, call, verdict)
    ensures Step(config, s, call, AfterCreate(config, s, call), Created(call.newId, 1))
  {
  }

  lemma DuplicateIsStep(config: Config, s: Store, call: Call, verdict: DedupResult)
    requires forall id: ArticleId :: !IsExisting(s, call, id)
    requires verdict.isDuplicate && IsVerdictOn(config, s, call, verdict)
    ensures Step(config, s, call, s, Duplicate(verdict.duplicateOf, verdict.stage))
  {
  }

  /** The answer of the duplicate lookup that a call makes. */
  ghost predicate IsVerdictOn(config: Config, s: Store, call: Call, verdict: DedupResult) {
    IsVerdict(CorpusOf(s.articles), call.cleaned.contentHash, HashOf(config, call), config.threshold, None, verdict)
  }

  ghost predicate UpdateStep(config: Config, s: Store, c: Cleaned, id: ArticleId, s': Store, r: PersistResult)
    requires id in s.articles
  {
    if s.articles[id].contentHash == c.contentHash then s' == s && r == Unchanged(id, s.articles[id].currentVersion)
    else s' == AfterUpdate(config, s, id, c) && r == Updated(id, s.articles[id].currentVersion + 1)
  }

  ghost function AfterCreate(config: Config, s: Store, call: Call): Store {
    var article := NewArticle(call.cleaned, call.canonicalUrl, HashOf(config, call));
    Store(s.articles[call.newId := article],
      s.versions[VersionKey(call.newId, 1) := Version(SnapshotOf(article), NO_FLAGS)])
  }

  // ---------- Version history ----------

  ghost predicate IsSnapshotOf(s: Snapshot, a: Article) {
    && s.contentHash == a.contentHash && s.title == a.title && s.subtitle == a.subtitle && s.author == a.author
    && s.category == a.category && s.publishedAt == a.publishedAt && s.body == a.body
  }

  ghost predicate HashedBy(config: Config, v: Snapshot) {
    v.contentHash == config.identityHash(v.title, v.author, v.publishedAt, v.body)
  }

  /** Version `v` of an article: version 1 has no flags, a later one tells the truth about its predecessor. */
  ghost predicate IsTrueVersion(config: Config, versions: map<VersionKey, Version>, id: ArticleId, v: nat) {
    && VersionKey(id, v) in versions
    && var now := versions[VersionKey(id, v)];
    && HashedBy(config, now.snapshot)
    && (v <= 1 ==> now.flags == NO_FLAGS)
    && (v > 1 ==> VersionKey(id, v - 1) in versions && IsTrueChange(versions[VersionKey(id, v - 1)].snapshot, now))
  }

  /** The content hash changed, the flags are the difference, and a hashed field is among them. */
  ghost predicate IsTrueChange(was: Snapshot, now: Version) {
    && was.contentHash != now.snapshot.contentHash
    && (now.flags.title <==> was.title != now.snapshot.title)
    && (now.flags.body <==> was.body != now.snapshot.body)
    && (now.flags.author <==> was.author != now.snapshot.author)
    && (now.flags.publishedAt <==> was.publishedAt != now.snapshot.publishedAt)
    && (now.flags.category <==> was.category != now.snapshot.category)
    && (was.subtitle != now.snapshot.subtitle ==> now.flags.metadata)
    && (now.flags.title || now.flags.body || now.flags.author || now.flags.publishedAt)
  }

  /** An article's versions are exactly 1 to `currentVersion`, each of them true, and the last is the live row. */
  ghost predicate HistoryOf(config: Config, article: Article, versions: map<VersionKey, Version>, id: ArticleId) {
    && article.currentVersion >= 1
    && (forall v: nat :: VersionKey(id, v) in versions <==> 1 <= v <= article.currentVersion)
    && (forall v: nat :: 1 <= v <= article.currentVersion ==> IsTrueVersion(config, versions, id, v))
    && IsSnapshotOf(versions[VersionKey(id, article.currentVersion)].snapshot, article)
  }

  ghost predicate History(config: Config, s: Store) {
    && (forall key: VersionKey :: key in s.versions ==> key.article in s.articles)
    && (forall id: ArticleId :: id in s.articles ==> HistoryOf(config, s.articles[id], s.versions, id))
    && UniqueUrls(s.articles)
  }

  ghost predicate UniqueUrls(articles: map<ArticleId, Article>) {
    forall a: ArticleId, b: ArticleId :: a in articles && b in articles && a != b ==>
      articles[a].canonicalUrl != articles[b].canonicalUrl
  }

  /** Adding a version of one article leaves the history of another alone. */
  lemma OtherHistoriesKept(
      config: Config, article: Article, versions: map<VersionKey, Version>, id: ArticleId, key: VersionKey, v: Version)
    requires HistoryOf(config, article, versions, id) && key.article != id
    ensures HistoryOf(config, article, versions[key := v], id)
  {
    var after := versions[key := v];
    forall n: nat | 1 <= n <= article.currentVersion ensures IsTrueVersion(config, after, id, n) {
      assert IsTrueVersion(config, versions, id, n);
    }
  }

  lemma CreateKeepsHistory(config: Config, s: Store, call: Call, s': Store)
    requires History(config, s) && config.Hashes(call.cleaned) && call.newId !in s.articles
    requires forall id: ArticleId :: !IsExisting(s, call, id)
    requires s' == AfterCreate(config, s, call)
    ensures History(config, s')
  {
    var key, article := VersionKey(call.newId, 1), s'.articles[call.newId];
    FirstVersionIsTrue(config, s, call);
    hide HistoryOf, UniqueUrls, SnapshotOf, IsExisting;
    NewUrlStaysUnique(s, call, article);
    forall id: ArticleId | id in s.articles ensures HistoryOf(config, s.articles[id], s'.versions, id) {
      OtherHistoriesKept(config, s.articles[id], s.versions, id, key, s'.versions[key]);
    }
  }

  lemma FirstVersionIsTrue(config: Config, s: Store, call: Call)
    requires History(config, s) && config.Hashes(call.cleaned) && call.newId !in s.articles
    ensures var s' := AfterCreate(config, s, call); HistoryOf(config, s'.articles[call.newId], s'.versions, call.newId)
  {
    hide UniqueUrls;
    assert IsTrueVersion(config, AfterCreate(config, s, call).versions, call.newId, 1);
  }

  lemma NewUrlStaysUnique(s: Store, call: Call, article: Article)
    requires UniqueUrls(s.articles) && article.canonicalUrl == call.canonicalUrl
    requires forall id: ArticleId :: !IsExisting(s, call, id)
    ensures UniqueUrls(s.articles[call.newId := article])
  {
    forall a: ArticleId | a in s.articles ensures s.articles[a].canonicalUrl != call.canonicalUrl {
      assert !IsExisting(s, call, a);
    }
  }

  lemma SameUrlStaysUnique(articles: map<ArticleId, Article>, id: ArticleId, now: Article)
    requires UniqueUrls(articles) && id in articles && now.canonicalUrl == articles[id].canonicalUrl
    ensures UniqueUrls(articles[id := now])
  {
  }

  lemma UpdateKeepsHistory(config: Config, s: Store, c: Cleaned, id: ArticleId, s': Store)
    requires History(config, s) && config.Hashes(c) && id in s.articles && s.articles[id].contentHash != c.contentHash
    requires s' == AfterUpdate(config, s, id, c)
    ensures History(config, s')
  {
    var was, now := s.articles[id], s'.articles[id];
    var next := UpdateShape(config, s, c, id, s');
    hide AfterUpdate, HistoryOf, SnapshotOf, Diff, HashedBy, UniqueUrls;
    SameUrlStaysUnique(s.articles, id, now);
    var key := VersionKey(id, now.currentVersion);
    NextVersionIsTrue(config, was, s.versions, id, now, next);
    forall other: ArticleId | other in s.articles && other != id
      ensures HistoryOf(config, s.articles[other], s'.versions, other)
    {
      OtherHistoriesKept(config, s.articles[other], s.versions, other, key, next);
    }
  }

  lemma UpdateShape(config: Config, s: Store, c: Cleaned, id: ArticleId, s': Store) returns (next: Version)
    requires config.Hashes(c) && id in s.articles && s' == AfterUpdate(config, s, id, c)
    ensures id in s'.articles && var was, now := s.articles[id], s'.articles[id];
      && s' == Store(s.articles[id := now], s.versions[VersionKey(id, now.currentVersion) := next])
      && now.currentVersion == was.currentVersion + 1 && now.canonicalUrl == was.canonicalUrl
         && now.contentHash == c.contentHash
      && next.snapshot == SnapshotOf(now) && HashedBy(config, next.snapshot)
      && next.flags.(metadata := false) == Diff(SnapshotOf(was), next.snapshot)
      && (was.subtitle != now.subtitle ==> next.flags.metadata)
  {
    next := s'.versions[VersionKey(id, s'.articles[id].currentVersion)];
  }

  lemma NextVersionIsTrue(
      config: Config, was: Article, versions: map<VersionKey, Version>, id: ArticleId, now: Article, next: Version)
    requires HistoryOf(config, was, versions, id) && now.currentVersion == was.currentVersion + 1
    requires next.snapshot == SnapshotOf(now) && HashedBy(config, next.snapshot)
    requires was.contentHash != now.contentHash
      && next.flags.(metadata := false) == Diff(SnapshotOf(was), next.snapshot)
    requires was.subtitle != now.subtitle ==> next.flags.metadata
    ensures HistoryOf(config, now, versions[VersionKey(id, now.currentVersion) := next], id)
  {
    var after := versions[VersionKey(id, now.currentVersion) := next];
    assert IsTrueVersion(config, versions, id, was.currentVersion);
    assert IsTrueChange(SnapshotOf(was), next);
    forall n: nat | 1 <= n <= now.currentVersion ensures IsTrueVersion(config, after, id, n) {
      if n <= was.currentVersion {
        assert IsTrueVersion(config, versions, id, n);
      }
    }
  }

  /** The states of a sequential run of `persist` calls on an empty database. */
  ghost predicate IsRun(config: Config, states: seq<Store>, calls: seq<Call>, results: seq<PersistResult>) {
    && |states| == |calls| + 1 == |results| + 1
    && states[0] == Store(map[], map[])
    && forall i {:trigger calls[i]} :: 0 <= i < |calls| ==>
         && config.Hashes(calls[i].cleaned) && CanStep(config, states[i], calls[i])
         && Step(config, states[i], calls[i], states[i + 1], results[i])
  }

  lemma RunStart(config: Config, states: seq<Store>, calls: seq<Call>, results: seq<PersistResult>)
    requires IsRun(config, states, calls, results)
    ensures |states| > 0 && states[0] == Store(map[], map[])
  {
    hide CanStep, Step;
  }

  lemma RunStep(config: Config, states: seq<Store>, calls: seq<Call>, results: seq<PersistResult>, n: nat)
    requires IsRun(config, states, calls, results) && n + 1 < |states|
    ensures n < |calls| == |results| && config.Hashes(calls[n].cleaned) && calls[n].newId !in states[n].articles
    ensures Step(config, states[n], calls[n], states[n + 1], results[n])
  {
    hide Step, LegalExact, LegalAnswer;
  }

  lemma StepKeepsHistory(config: Config, s: Store, call: Call, s': Store, r: PersistResult)
    requires History(config, s) && config.Hashes(call.cleaned) && call.newId !in s.articles
      && Step(config, s, call, s', r)
    ensures History(config, s')
  {
    hide History, IsVerdict, AfterUpdate, AfterCreate, HashOf;
    if s' != s {
      if id: ArticleId :| IsExisting(s, call, id) && UpdateStep(config, s, call.cleaned, id, s', r) {
        UpdateKeepsHistory(config, s, call.cleaned, id, s');
      } else {
        CreateKeepsHistory(config, s, call, s');
      }
    }
  }

  lemma {:induction false} HistoryOverRuns(
      config: Config, states: seq<Store>, calls: seq<Call>, results: seq<PersistResult>, n: nat)
    requires IsRun(config, states, calls, results) && n < |states|
    ensures History(config, states[n])
  {
    hide IsRun, Step;
    RunStart(config, states, calls, results);
    if n > 0 {
      hide History;
      RunStep(config, states, calls, results, n - 1);
      HistoryOverRuns(config, states, calls, results, n - 1);
      StepKeepsHistory(config, states[n - 1], calls[n - 1], states[n], results[n - 1]);
    }
  }

  // ---------- The corpus as a code ----------

  /** Distinct content hashes, and nonzero SimHashes further apart than the threshold. */
  ghost predicate Separated(config: Config, articles: map<ArticleId, Article>) {
    forall a: ArticleId, b: ArticleId :: a in articles && b in articles && a != b ==>
      Apart(config, articles[a], articles[b])
  }

  ghost predicate Apart(config: Config, a: Article, b: Article) {
    && a.contentHash != b.contentHash
    && (a.simhash != 0 && b.simhash != 0 ==>
         Hamming(ToUnsigned64(a.simhash), ToUnsigned64(b.simhash)) > config.threshold)
  }

  /** The call is for a URL not yet stored, and its band query is not cut off. */
  ghost predicate FreshAndUncut(config: Config, s: Store, call: Call) {
    && (forall id: ArticleId :: !IsExisting(s, call, id))
    && |Matches(CorpusOf(s.articles), HashOf(config, call), None)| <= CANDIDATE_LIMIT
  }

  lemma AdmittedArticleIsApart(config: Config, s: Store, call: Call, verdict: DedupResult, id: ArticleId)
    requires FreshAndUncut(config, s, call) && id in s.articles
    requires IsVerdictOn(config, s, call, verdict)
    requires !verdict.isDuplicate
    ensures var article := NewArticle(call.cleaned, call.canonicalUrl, HashOf(config, call));
            Apart(config, article, s.articles[id]) && Apart(config, s.articles[id], article)
  {
    hide Hamming, ToUnsigned64, SharesABand;
    var corpus, simhash := CorpusOf(s.articles), HashOf(config, call);
    assert id in corpus && corpus[id] == FingerprintOf(s.articles[id]);
    assert !HasExact(corpus, call.cleaned.contentHash, None);
    if simhash != 0 {
      assert !IsNear(corpus, simhash, config.threshold, None, id);
    }
    HammingSymmetric(ToUnsigned64(simhash), ToUnsigned64(s.articles[id].simhash));
  }

  /** A call on a fresh URL with an uncut query keeps the corpus separated. */
  lemma StepSeparates(config: Config, s: Store, call: Call, s': Store, r: PersistResult)
    requires Separated(config, s.articles) && FreshAndUncut(config, s, call) && Step(config, s, call, s', r)
    ensures Separated(config, s'.articles)
  {
    hide Apart, IsVerdict, HashOf, Matches, AfterUpdate;
    if s' != s {
      var verdict: DedupResult :| !verdict.isDuplicate && IsVerdictOn(config, s, call, verdict);
      forall id: ArticleId | id in s.articles
        ensures Apart(config, s'.articles[call.newId], s.articles[id])
          && Apart(config, s.articles[id], s'.articles[call.newId])
      {
        AdmittedArticleIsApart(config, s, call, verdict, id);
      }
    }
  }

  /** The stored articles form a code of minimum distance `threshold + 1` (4 by default), in every run. */
  lemma {:induction false} SeparatedCorpus(
      config: Config, states: seq<Store>, calls: seq<Call>, results: seq<PersistResult>, n: nat)
    requires IsRun(config, states, calls, results) && n < |states|
    requires forall i {:trigger calls[i]} :: 0 <= i < |calls| ==> FreshAndUncut(config, states[i], calls[i])
    ensures Separated(config, states[n].articles)
  {
    hide IsRun, FreshAndUncut, Step, Apart;
    RunStart(config, states, calls, results);
    if n > 0 {
      hide Separated;
      RunStep(config, states, calls, results, n - 1);
      assert FreshAndUncut(config, states[n - 1], calls[n - 1]);
      SeparatedCorpus(config, states, calls, results, n - 1);
      StepSeparates(config, states[n - 1], calls[n - 1], states[n], results[n - 1]);
    }
  }
}
