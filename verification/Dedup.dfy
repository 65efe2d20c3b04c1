/** Staged duplicate lookup: exact content hash first, then SimHash candidates through the band index. */
module Dedup {
  import opened Wrappers
  import opened Bits
  import opened SimHash

  const GRAY_ZONE_HAMMING: nat := 6
  const CANDIDATE_LIMIT: nat := 500
  const GRAY_LIMIT: nat := 10

  type ArticleId = nat

  /** What the lookup reads of a stored article; `simhash` is the signed column. */
  datatype Fingerprint = Fingerprint(contentHash: string, simhash: Option<int>)

  type Corpus = map<ArticleId, Fingerprint>

  datatype Stage = Exact | Near

  datatype DedupResult = DedupResult(
    isDuplicate: bool, duplicateOf: Option<ArticleId>, stage: Option<Stage>, hamming: Option<nat>,
    semanticCandidates: seq<ArticleId>)

  const NO_DUPLICATE := DedupResult(false, None, None, None, [])

  /** Banding only promises recall up to `BANDS - 1` flips, so a larger threshold is refused. */
  function Configure(threshold: int): (r: Result<int, string>)
    ensures r.Success? <==> threshold <= BANDS - 1
    ensures r.Success? ==> r.value == threshold
  {
    if threshold > BANDS - 1 then Failure("hamming_threshold too large for the band lookup") else Success(threshold)
  }

  // ---------- The queries ----------

  /** Rows the near stage compares with: stored hash present, article not excluded. */
  predicate Comparable(corpus: Corpus, exclude: Option<ArticleId>, id: ArticleId) {
    id in corpus && corpus[id].simhash.Some? && exclude != Some(id)
  }

  function Distance(corpus: Corpus, simhash: int, id: ArticleId): nat
    requires id in corpus && corpus[id].simhash.Some?
  {
    Hamming(ToUnsigned64(simhash), ToUnsigned64(corpus[id].simhash.value))
  }

  /** The `WHERE` clause over the four band indexes, evaluated on the signed column. */
  predicate SharesABand(stored: int, simhash: int) {
    exists i: nat :: i < BANDS && Band(stored, i) == Band(ToUnsigned64(simhash), i)
  }

  /** The filter compares the four 16-bit digits, pairwise. */
  lemma FilterComparesDigits(stored: int, simhash: int)
    ensures SharesABand(stored, simhash) <==> exists i: nat :: i < 4 && Digit(stored, i) == Digit(simhash, i)
  {
    forall i: nat | i < 4
      ensures Band(stored, i) == Band(ToUnsigned64(simhash), i) <==> Digit(stored, i) == Digit(simhash, i)
    {
      hide ToUnsigned64, Band, Digit;
      BandIsDigit(stored, i);
      BandIsDigit(simhash, i);
      MaskingKeepsBands(simhash, i);
    }
    hide Band, ToUnsigned64, Digit;
  }

  ghost function Matches(corpus: Corpus, simhash: int, exclude: Option<ArticleId>): set<ArticleId> {
    set id | id in corpus.Keys && Comparable(corpus, exclude, id) && SharesABand(corpus[id].simhash.value, simhash)
  }

  ghost predicate Distinct<T>(s: seq<T>) {
    forall i, j :: 0 <= i < j < |s| ==> s[i] != s[j]
  }

  /** Any answer the database may give to the candidate query: unordered, at most `LIMIT` rows. */
  ghost predicate LegalAnswer(corpus: Corpus, simhash: int, exclude: Option<ArticleId>, answer: seq<ArticleId>) {
    && Distinct(answer)
    && (forall i :: 0 <= i < |answer| ==> answer[i] in Matches(corpus, simhash, exclude))
    && |answer| == var n := |Matches(corpus, simhash, exclude)|; if n <= CANDIDATE_LIMIT then n else CANDIDATE_LIMIT
  }

  ghost predicate LegalExact(
      corpus: Corpus, contentHash: string, exclude: Option<ArticleId>, exact: Option<ArticleId>)
  {
    if exact.Some? then
      exact.value in corpus && corpus[exact.value].contentHash == contentHash && exclude != exact
    else
      forall id: ArticleId :: id in corpus && exclude != Some(id) ==> corpus[id].contentHash != contentHash
  }

  /** The reference: some stored hash lies within the threshold, found by looking at every row. */
  ghost predicate HasNear(corpus: Corpus, simhash: int, threshold: int, exclude: Option<ArticleId>) {
    exists id: ArticleId :: IsNear(corpus, simhash, threshold, exclude, id)
  }

  ghost predicate IsNear(corpus: Corpus, simhash: int, threshold: int, exclude: Option<ArticleId>, id: ArticleId) {
    Comparable(corpus, exclude, id) && Distance(corpus, simhash, id) <= threshold
  }

  /** A near row is any stored row with a hash, but the excluded one, that differs in few enough of the 64 bits. */
  lemma NearMeans(corpus: Corpus, simhash: int, threshold: int, exclude: Option<ArticleId>, id: ArticleId)
    ensures IsNear(corpus, simhash, threshold, exclude, id) <==>
      && id in corpus && exclude != Some(id) && corpus[id].simhash != None
      && Differing(simhash, corpus[id].simhash.value, 0, 64) <= threshold
  {
    hide ToUnsigned64, Differing;
    if id in corpus && corpus[id].simhash != None {
      UnsignedIsFaithful(simhash, ToUnsigned64(corpus[id].simhash.value));
      UnsignedIsFaithful(corpus[id].simhash.value, simhash);
    }
  }

  /** Every row within three bits is in the answer set of the band query. */
  lemma NearRowsMatch(corpus: Corpus, simhash: int, exclude: Option<ArticleId>, id: ArticleId)
    requires IsNear(corpus, simhash, BANDS - 1, exclude, id)
    ensures id in Matches(corpus, simhash, exclude)
  {
    hide Band, Hamming, ToUnsigned64;
    UnsignedIsFaithful(corpus[id].simhash.value, ToUnsigned64(simhash));
    HammingSymmetric(corpus[id].simhash.value, ToUnsigned64(simhash));
    NearHashesShareABand(corpus[id].simhash.value, ToUnsigned64(simhash));
  }

  lemma HammingSymmetric(a: int, b: int)
    ensures Hamming(a, b) == Hamming(b, a)
  {
    DifferingSymmetric(a, b, BITS);
  }

  /** Below the limit the answer lists every matching row. */
  lemma AnswerIsComplete(corpus: Corpus, simhash: int, exclude: Option<ArticleId>, answer: seq<ArticleId>)
    requires LegalAnswer(corpus, simhash, exclude, answer)
    requires |Matches(corpus, simhash, exclude)| <= CANDIDATE_LIMIT
    ensures forall id: ArticleId :: id in Matches(corpus, simhash, exclude) <==> id in answer
  {
    var listed := Elements(answer);
    ElementsOfDistinct(answer);
    assert listed <= Matches(corpus, simhash, exclude);
    SubsetOfSameSize(listed, Matches(corpus, simhash, exclude));
  }

  ghost function Elements(s: seq<ArticleId>): set<ArticleId> {
    set x | x in s
  }

  lemma NextOfDistinct(s: seq<ArticleId>, i: nat)
    requires Distinct(s) && i < |s|
    ensures s[i] !in s[..i] && s[..i + 1] == s[..i] + [s[i]]
  {
  }

  lemma {:induction false} ElementsOfDistinct(s: seq<ArticleId>)
    requires Distinct(s)
    ensures |Elements(s)| == |s|
  {
    if s != [] {
      var rest := s[..|s| - 1];
      ElementsOfDistinct(rest);
      assert Elements(s) == Elements(rest) + {s[|s| - 1]};
    }
  }

  lemma SubsetOfSameSize(a: set<ArticleId>, b: set<ArticleId>)
    requires a <= b && |a| == |b|
    ensures a == b
  {
    assert |b - a| == |b| - |a|;
  }

  // ---------- The near stage ----------

  datatype Candidate = Candidate(distance: nat, id: ArticleId)

  ghost predicate SortedByDistance(s: seq<Candidate>) {
    forall i, j :: 0 <= i < j < |s| ==> s[i].distance <= s[j].distance
  }

  /** Insertion after equal keys, as a stable sort does. */
  function Insert(s: seq<Candidate>, x: Candidate): seq<Candidate> {
    if s == [] || s[|s| - 1].distance <= x.distance then s + [x] else Insert(s[..|s| - 1], x) + [s[|s| - 1]]
  }

  function Sorted(s: seq<Candidate>): seq<Candidate> {
    if s == [] then [] else Insert(Sorted(s[..|s| - 1]), s[|s| - 1])
  }

  lemma {:induction false} InsertAddsOne(s: seq<Candidate>, x: Candidate)
    ensures |Insert(s, x)| == |s| + 1 && multiset(Insert(s, x)) == multiset(s) + multiset{x}
  {
    if s != [] && s[|s| - 1].distance > x.distance {
      InsertAddsOne(s[..|s| - 1], x);
      assert s == s[..|s| - 1] + [s[|s| - 1]];
    }
  }

  lemma {:induction false} InsertKeepsOrder(s: seq<Candidate>, x: Candidate)
    requires SortedByDistance(s)
    ensures SortedByDistance(Insert(s, x))
  {
    if s != [] && s[|s| - 1].distance > x.distance {
      var front, last := s[..|s| - 1], s[|s| - 1];
      InsertKeepsOrder(front, x);
      var inserted := Insert(front, x);
      InsertAddsOne(front, x);
      hide Insert;
      forall i | 0 <= i < |inserted| ensures inserted[i].distance <= last.distance {
        assert inserted[i] in multiset(inserted);
        assert inserted[i] == x || inserted[i] in front;
      }
      assert SortedByDistance(inserted + [last]);
    }
  }

  lemma {:induction false} SortedIsASort(s: seq<Candidate>)
    ensures |Sorted(s)| == |s| && SortedByDistance(Sorted(s))
    ensures multiset(Sorted(s)) == multiset(s)
  {
    if s != [] {
      SortedIsASort(s[..|s| - 1]);
      InsertKeepsOrder(Sorted(s[..|s| - 1]), s[|s| - 1]);
      InsertAddsOne(Sorted(s[..|s| - 1]), s[|s| - 1]);
      assert s == s[..|s| - 1] + [s[|s| - 1]];
    }
  }

  /** The suspicious but inconclusive rows of an answer. */
  ghost predicate IsGray(corpus: Corpus, simhash: int, threshold: int, answer: seq<ArticleId>, id: ArticleId) {
    id in answer && id in corpus && corpus[id].simhash.Some?
      && threshold < Distance(corpus, simhash, id) <= GRAY_ZONE_HAMMING
  }

  /** At most ten gray rows, closest first; a row is left out only when ten listed ones are at least as close. */
  ghost predicate IsGrayList(
      corpus: Corpus, simhash: int, threshold: int, answer: seq<ArticleId>, listed: seq<ArticleId>)
  {
    && Distinct(listed) && |listed| <= GRAY_LIMIT
    && (forall i :: 0 <= i < |listed| ==> IsGray(corpus, simhash, threshold, answer, listed[i]))
    && (forall i, j :: 0 <= i < j < |listed| ==>
         Distance(corpus, simhash, listed[i]) <= Distance(corpus, simhash, listed[j]))
    && (forall id: ArticleId :: IsGray(corpus, simhash, threshold, answer, id) && id !in listed ==>
          |listed| == GRAY_LIMIT
          && forall i :: 0 <= i < |listed| ==> Distance(corpus, simhash, listed[i]) <= Distance(corpus, simhash, id))
  }

  /**
   * The banded lookup. Whatever it reports is true of the corpus; and when the band query was not cut
   * off by its limit, it reports exactly what a scan of every stored hash would, at minimum distance.
   */
  method FindNear(corpus: Corpus, simhash: int, threshold: int, exclude: Option<ArticleId>, answer: seq<ArticleId>)
    returns (r: DedupResult)
    requires threshold <= BANDS - 1 && LegalAnswer(corpus, simhash, exclude, answer)
    ensures r.isDuplicate ==>
      && r.duplicateOf.Some? && r.duplicateOf != exclude && r.stage == Some(Near) && r.semanticCandidates == []
      && IsNear(corpus, simhash, threshold, exclude, r.duplicateOf.value)
      && r.hamming == Some(Distance(corpus, simhash, r.duplicateOf.value))
    ensures r.isDuplicate <==> exists id: ArticleId :: id in answer && IsNear(corpus, simhash, threshold, exclude, id)
    ensures !r.isDuplicate ==> r == NO_DUPLICATE.(semanticCandidates := r.semanticCandidates)
    ensures !r.isDuplicate ==> IsGrayList(corpus, simhash, threshold, answer, r.semanticCandidates)
    ensures |r.semanticCandidates| <= 10 && forall i :: 0 <= i < |r.semanticCandidates| ==>
      var id := r.semanticCandidates[i];
      id in corpus && corpus[id].simhash.Some? && threshold < Distance(corpus, simhash, id) <= 6
    ensures |Matches(corpus, simhash, exclude)| <= CANDIDATE_LIMIT ==>
      && (r.isDuplicate <==> HasNear(corpus, simhash, threshold, exclude))
      && (r.isDuplicate ==> forall id: ArticleId :: Comparable(corpus, exclude, id) ==>
           r.hamming.value <= Distance(corpus, simhash, id))
  {
    hide Distance, SharesABand, Sorted, IsGrayList, IsGrayLog;
    var best, gray := Scan(corpus, simhash, threshold, exclude, answer);
    if |Matches(corpus, simhash, exclude)| <= CANDIDATE_LIMIT {
      CompleteLookup(corpus, simhash, threshold, exclude, answer);
    }
    if best.Some? {
      return DedupResult(true, Some(best.value.id), Some(Near), Some(best.value.distance), []);
    }
    var sorted := Sorted(gray);
    SortedIsASort(gray);
    var count := if |sorted| <= GRAY_LIMIT then |sorted| else GRAY_LIMIT;
    var listed := seq(count, i requires 0 <= i < count => sorted[i].id);
    TopOfGrayLog(corpus, simhash, threshold, answer, gray, listed);
    GrayListMeans(corpus, simhash, threshold, answer, listed);
    r := NO_DUPLICATE.(semanticCandidates := listed);
  }

  lemma GrayListMeans(corpus: Corpus, simhash: int, threshold: int, answer: seq<ArticleId>, listed: seq<ArticleId>)
    requires IsGrayList(corpus, simhash, threshold, answer, listed)
    ensures |listed| <= 10 && forall i :: 0 <= i < |listed| ==>
      var id := listed[i];
      id in corpus && corpus[id].simhash.Some? && threshold < Distance(corpus, simhash, id) <= 6
  {
    hide Distance;
  }

  /** `best` is a closest row within the threshold among the rows read so far. */
  ghost predicate IsBest(
      corpus: Corpus, simhash: int, threshold: int, exclude: Option<ArticleId>, read: seq<ArticleId>,
      best: Option<Candidate>)
  {
    && (best.Some? ==>
         && best.value.id in read && IsNear(corpus, simhash, threshold, exclude, best.value.id)
         && best.value.distance == Distance(corpus, simhash, best.value.id))
    && (forall id: ArticleId :: id in read && IsNear(corpus, simhash, threshold, exclude, id) ==>
         best.Some? && best.value.distance <= Distance(corpus, simhash, id))
  }

  lemma BestGrows(
      corpus: Corpus, simhash: int, threshold: int, exclude: Option<ArticleId>, read: seq<ArticleId>, id: ArticleId,
      best: Option<Candidate>)
    requires IsBest(corpus, simhash, threshold, exclude, read, best) && Comparable(corpus, exclude, id)
    ensures var d := Distance(corpus, simhash, id);
            IsBest(corpus, simhash, threshold, exclude, read + [id],
                   if d <= threshold && (best.None? || d < best.value.distance) then Some(Candidate(d, id)) else best)
  {
    hide Distance;
  }

  /** Whether a candidate becomes the best so far. */
  predicate IsBetter(candidate: Candidate, threshold: int, best: Option<Candidate>) {
    candidate.distance <= threshold && (best.None? || candidate.distance < best.value.distance)
  }

  predicate InGrayZone(distance: nat, threshold: int) {
    threshold < distance <= GRAY_ZONE_HAMMING
  }

  lemma ScanGrows(
      corpus: Corpus, simhash: int, threshold: int, exclude: Option<ArticleId>, answer: seq<ArticleId>, i: nat,
      best: Option<Candidate>, gray: seq<Candidate>)
    requires Distinct(answer) && i < |answer| && Comparable(corpus, exclude, answer[i])
    requires IsBest(corpus, simhash, threshold, exclude, answer[..i], best)
    requires IsGrayLog(corpus, simhash, threshold, answer[..i], gray)
    ensures var c := Candidate(Distance(corpus, simhash, answer[i]), answer[i]);
      && IsBest(corpus, simhash, threshold, exclude, answer[..i + 1],
                if IsBetter(c, threshold, best) then Some(c) else best)
      && IsGrayLog(corpus, simhash, threshold, answer[..i + 1],
                   if InGrayZone(c.distance, threshold) then gray + [c] else gray)
  {
    hide Distance, IsBest, IsGrayLog;
    NextOfDistinct(answer, i);
    BestGrows(corpus, simhash, threshold, exclude, answer[..i], answer[i], best);
    GrayLogGrows(corpus, simhash, threshold, answer[..i], answer[i], gray);
  }

  lemma NothingScanned(
      corpus: Corpus, simhash: int, threshold: int, exclude: Option<ArticleId>, answer: seq<ArticleId>)
    ensures IsBest(corpus, simhash, threshold, exclude, answer[..0], None)
    ensures IsGrayLog(corpus, simhash, threshold, answer[..0], [])
  {
  }

  /** The loop over the candidates: the closest row within the threshold, and the gray rows. */
  method Scan(corpus: Corpus, simhash: int, threshold: int, exclude: Option<ArticleId>, answer: seq<ArticleId>)
    returns (best: Option<Candidate>, gray: seq<Candidate>)
    requires Distinct(answer) && forall i :: 0 <= i < |answer| ==> Comparable(corpus, exclude, answer[i])
    ensures IsBest(corpus, simhash, threshold, exclude, answer, best)
    ensures IsGrayLog(corpus, simhash, threshold, answer, gray)
  {
    hide Distance, IsBest, IsGrayLog, Distinct;
    best, gray := None, [];
    NothingScanned(corpus, simhash, threshold, exclude, answer);
    for i := 0 to |answer|
      invariant IsBest(corpus, simhash, threshold, exclude, answer[..i], best)
      invariant IsGrayLog(corpus, simhash, threshold, answer[..i], gray)
    {
      ScanGrows(corpus, simhash, threshold, exclude, answer, i, best, gray);
      var distance := Distance(corpus, simhash, answer[i]);
      if distance <= threshold {
        if best.None? || distance < best.value.distance {
          best := Some(Candidate(distance, answer[i]));
        }
      } else if distance <= GRAY_ZONE_HAMMING {
        gray := gray + [Candidate(distance, answer[i])];
      }
    }
    assert answer[..|answer|] == answer;
  }

  /** With a complete answer, the rows near the hash are all listed, and no other row is closer. */
  lemma CompleteLookup(corpus: Corpus, simhash: int, threshold: int, exclude: Option<ArticleId>, answer: seq<ArticleId>)
    requires threshold <= BANDS - 1 && LegalAnswer(corpus, simhash, exclude, answer)
    requires |Matches(corpus, simhash, exclude)| <= CANDIDATE_LIMIT
    ensures forall id: ArticleId :: IsNear(corpus, simhash, threshold, exclude, id) ==> id in answer
  {
    hide Distance, SharesABand;
    AnswerIsComplete(corpus, simhash, exclude, answer);
    forall id | IsNear(corpus, simhash, threshold, exclude, id) ensures id in answer {
      assert IsNear(corpus, simhash, BANDS - 1, exclude, id);
      NearRowsMatch(corpus, simhash, exclude, id);
    }
  }

  /** `gray` records each gray row of the rows read so far, once, with its distance. */
  ghost predicate IsGrayLog(corpus: Corpus, simhash: int, threshold: int, read: seq<ArticleId>, gray: seq<Candidate>) {
    && (forall i :: 0 <= i < |gray| ==>
         IsGray(corpus, simhash, threshold, read, gray[i].id)
           && gray[i].distance == Distance(corpus, simhash, gray[i].id))
    && (forall i, j :: 0 <= i < j < |gray| ==> gray[i].id != gray[j].id)
    && (forall id: ArticleId :: IsGray(corpus, simhash, threshold, read, id) ==>
         Candidate(Distance(corpus, simhash, id), id) in gray)
  }

  lemma GrayLogGrows(
      corpus: Corpus, simhash: int, threshold: int, read: seq<ArticleId>, id: ArticleId, gray: seq<Candidate>)
    requires IsGrayLog(corpus, simhash, threshold, read, gray) && id !in read && id in corpus
      && corpus[id].simhash.Some?
    ensures var d := Distance(corpus, simhash, id);
            IsGrayLog(corpus, simhash, threshold, read + [id],
                      if InGrayZone(d, threshold) then gray + [Candidate(d, id)] else gray)
  {
    hide Distance;
    var d := Distance(corpus, simhash, id);
    var grown := if InGrayZone(d, threshold) then gray + [Candidate(d, id)] else gray;
    forall x | IsGray(corpus, simhash, threshold, read + [id], x)
      ensures Candidate(Distance(corpus, simhash, x), x) in grown
    {
      if x != id {
        assert IsGray(corpus, simhash, threshold, read, x);
      }
    }
    forall i | 0 <= i < |gray| ensures IsGray(corpus, simhash, threshold, read + [id], gray[i].id) {
      assert IsGray(corpus, simhash, threshold, read, gray[i].id);
    }
  }

  lemma TopOfGrayLog(
      corpus: Corpus, simhash: int, threshold: int, answer: seq<ArticleId>, gray: seq<Candidate>,
      listed: seq<ArticleId>)
    requires IsGrayLog(corpus, simhash, threshold, answer, gray)
    requires |listed| == if |gray| <= GRAY_LIMIT then |gray| else GRAY_LIMIT
    requires |listed| <= |Sorted(gray)| && forall i :: 0 <= i < |listed| ==> listed[i] == Sorted(gray)[i].id
    ensures IsGrayList(corpus, simhash, threshold, answer, listed)
  {
    hide Distance, Sorted, Comparable;
    var sorted := Sorted(gray);
    SortedIsASort(gray);
    forall i | 0 <= i < |sorted| ensures sorted[i] in gray {
      assert sorted[i] in multiset(sorted);
    }
    SortedStaysDistinct(gray, sorted);
    forall id | IsGray(corpus, simhash, threshold, answer, id) && id !in listed
      ensures |listed| == GRAY_LIMIT && forall i :: 0 <= i < |listed| ==>
        Distance(corpus, simhash, listed[i]) <= Distance(corpus, simhash, id)
    {
      LeftOutIsFarther(gray, sorted, listed, Candidate(Distance(corpus, simhash, id), id));
    }
  }

  /** A candidate that does not make the top of the sorted list is at least as far as all that do. */
  lemma LeftOutIsFarther(gray: seq<Candidate>, sorted: seq<Candidate>, listed: seq<ArticleId>, out: Candidate)
    requires SortedByDistance(sorted) && multiset(sorted) == multiset(gray) && out in gray && out.id !in listed
    requires |listed| <= |sorted| && |listed| == if |gray| <= GRAY_LIMIT then |gray| else GRAY_LIMIT
    requires forall i :: 0 <= i < |listed| ==> listed[i] == sorted[i].id
    ensures |listed| == GRAY_LIMIT && forall i :: 0 <= i < |listed| ==> sorted[i].distance <= out.distance
  {
    assert |sorted| == |multiset(sorted)| == |gray|;
    assert out in multiset(sorted);
    var k :| 0 <= k < |sorted| && sorted[k] == out;
    assert k >= |listed|;
  }

  lemma SortedStaysDistinct(a: seq<Candidate>, b: seq<Candidate>)
    requires multiset(a) == multiset(b)
    requires forall i, j :: 0 <= i < j < |a| ==> a[i].id != a[j].id
    ensures forall i, j :: 0 <= i < j < |b| ==> b[i].id != b[j].id
  {
    forall i, j | 0 <= i < j < |b| ensures b[i].id != b[j].id {
      assert b[i] in multiset(b) && b[j] in multiset(b);
      var p :| 0 <= p < |a| && a[p] == b[i];
      var q :| 0 <= q < |a| && a[q] == b[j];
      if b[i].id == b[j].id {
        assert p == q;
        CountOnce(a, p);
        CountTwice(b, i, j);
      }
    }
  }

  lemma CountOnce(s: seq<Candidate>, p: nat)
    requires p < |s| && forall i :: 0 <= i < |s| && i != p ==> s[i] != s[p]
    ensures multiset(s)[s[p]] == 1
  {
    assert s == s[..p] + [s[p]] + s[p + 1..];
  }

  lemma CountTwice(s: seq<Candidate>, i: nat, j: nat)
    requires i < j < |s| && s[i] == s[j]
    ensures multiset(s)[s[i]] >= 2
  {
    assert s == s[..i] + [s[i]] + s[i + 1..j] + [s[j]] + s[j + 1..];
  }

  /**
   * Exactly when the limit can hide a duplicate: given that one exists, every answer the database may
   * give contains one if and only if fewer than `CANDIDATE_LIMIT` matching rows lie beyond the threshold.
   */
  lemma LimitHidesDuplicates(corpus: Corpus, simhash: int, threshold: int, exclude: Option<ArticleId>)
    requires threshold <= BANDS - 1 && HasNear(corpus, simhash, threshold, exclude)
    ensures (forall answer :: LegalAnswer(corpus, simhash, exclude, answer) ==>
               exists id: ArticleId :: id in answer && IsNear(corpus, simhash, threshold, exclude, id))
       <==> |FarMatches(corpus, simhash, threshold, exclude)| < 500
  {
    hide SharesABand, Distance;
    var matches, far := Matches(corpus, simhash, exclude), FarMatches(corpus, simhash, threshold, exclude);
    var near :| IsNear(corpus, simhash, threshold, exclude, near);
    assert near in matches - far by {
      NearRowsMatch(corpus, simhash, exclude, near);
    }
    if |far| >= CANDIDATE_LIMIT {
      var hiding := Pick(far, CANDIDATE_LIMIT);
      SubsetSize(far, matches);
      assert LegalAnswer(corpus, simhash, exclude, hiding);
    } else {
      forall answer | LegalAnswer(corpus, simhash, exclude, answer)
        ensures exists id: ArticleId :: id in answer && IsNear(corpus, simhash, threshold, exclude, id)
      {
        if Elements(answer) <= far {
          ElementsOfDistinct(answer);
          SubsetSize(Elements(answer), far);
          SubsetSize(far + {near}, matches);
        }
        var id :| id in Elements(answer) && id !in far;
      }
    }
  }

  ghost function FarMatches(corpus: Corpus, simhash: int, threshold: int, exclude: Option<ArticleId>): set<ArticleId> {
    set id | id in Matches(corpus, simhash, exclude) && !IsNear(corpus, simhash, threshold, exclude, id)
  }

  lemma SubsetSize(a: set<ArticleId>, b: set<ArticleId>)
    requires a <= b
    ensures |a| <= |b|
  {
    assert |b - a| == |b| - |a|;
  }

  lemma {:induction false} Pick(s: set<ArticleId>, n: nat) returns (picked: seq<ArticleId>)
    requires n <= |s|
    ensures |picked| == n && Distinct(picked) && forall i :: 0 <= i < n ==> picked[i] in s
  {
    if n == 0 {
      picked := [];
    } else {
      var x :| x in s;
      var rest := Pick(s - {x}, n - 1);
      picked := [x] + rest;
    }
  }

  // ---------- A corpus in which the limit hides a duplicate ----------

  function FirstIds(n: nat): set<ArticleId> {
    if n == 0 then {} else FirstIds(n - 1) + {n - 1}
  }

  lemma {:induction false} FirstIdsAreFirst(n: nat)
    ensures |FirstIds(n)| == n && forall id: ArticleId :: id in FirstIds(n) <==> id < n
  {
    if n > 0 {
      FirstIdsAreFirst(n - 1);
    }
  }

  /** `crowd` rows that share three bands with the hash 1 but are four bits away from it, and then a row equal to it. */
  function CrowdedCorpus(crowd: nat): Corpus {
    Crowd(FirstIds(crowd + 1), crowd)
  }

  function Crowd(ids: set<ArticleId>, copy: ArticleId): Corpus {
    map id | id in ids :: Fingerprint("", Some(if id == copy then 1 else 31))
  }

  /** From 500 such rows on the exact copy can stay unseen; with fewer it cannot. */
  lemma CrowdHidesDuplicate(crowd: nat)
    ensures HasNear(CrowdedCorpus(crowd), 1, BANDS - 1, None)
    ensures (forall answer :: LegalAnswer(CrowdedCorpus(crowd), 1, None, answer) ==>
               exists id: ArticleId :: id in answer && IsNear(CrowdedCorpus(crowd), 1, BANDS - 1, None, id))
       <==> crowd < 500
  {
    var corpus := CrowdedCorpus(crowd);
    FourBitsApart();
    hide SharesABand, Hamming, ToUnsigned64;
    FirstIdsAreFirst(crowd + 1);
    assert IsNear(corpus, 1, BANDS - 1, None, crowd);
    LimitHidesDuplicates(corpus, 1, BANDS - 1, None);
    var far := FarMatches(corpus, 1, BANDS - 1, None);
    FirstIdsAreFirst(crowd);
    assert far == FirstIds(crowd);
  }

  lemma FourBitsApart()
    ensures ToUnsigned64(1) == 1 && ToUnsigned64(31) == 31
    ensures Hamming(1, 1) == 0 && Hamming(1, 31) == 4
    ensures SharesABand(31, 1) && SharesABand(1, 1)
  {
    hide Hamming, Band, SharesABand, ToUnsigned64;
    OneAndThirtyOne();
    assert Band(1, 1) == Band(ToUnsigned64(1), 1) && Band(31, 1) == Band(ToUnsigned64(1), 1);
    SharesBandOne(1);
    SharesBandOne(31);
  }

  lemma SharesBandOne(stored: int)
    requires Band(stored, 1) == Band(ToUnsigned64(1), 1)
    ensures SharesABand(stored, 1)
  {
    hide Band, ToUnsigned64;
  }

  lemma OneAndThirtyOne()
    ensures ToUnsigned64(1) == 1 && ToUnsigned64(31) == 31
    ensures Hamming(1, 1) == 0 && Hamming(1, 31) == 4 && Band(31, 1) == Band(1, 1)
  {
    hide Differing, ShiftRight, LowBits, Pow2;
    Small(1);
    Small(31);
    LowBitsAgree(1, 1, BITS);
    HighBitsEqual();
    DifferingSplits(1, 31, 0, 5, BITS);
    DifferingSplits(31, 1, 5, 16, BITS);
    DifferingSplits(31, 1, 16, 32, BITS);
    BandsAgree(31, 1, 1);
    LowFiveBits();
  }

  lemma Small(value: nat)
    requires value < 32
    ensures ToUnsigned64(value) == value
  {
    assert Pow2(5) == 32;
    Pow2Grows(5, BITS);
    hide Pow2, LowBits;
    SmallLowBits(value, BITS);
  }

  lemma {:induction false} Pow2Grows(m: nat, n: nat)
    requires m <= n
    ensures Pow2(m) <= Pow2(n)
  {
    if m < n {
      Pow2Grows(m, n - 1);
    }
  }

  lemma HighBitsEqual()
    ensures Differing(1, 31, 5, BITS) == 0 == Differing(31, 1, 5, BITS)
  {
    assert ShiftRight(1, 5) == 0 == ShiftRight(31, 5);
    hide Differing, ShiftRight, LowBits;
    DifferingShifted(1, 31, 5, 0, BITS - 5);
    DifferingShifted(31, 1, 5, 0, BITS - 5);
    LowBitsAgree(0, 0, BITS - 5);
  }

  lemma LowFiveBits()
    ensures Differing(1, 31, 0, 5) == 4
  {
    assert Bit(1, 0) && Bit(31, 0) && !Bit(1, 1) && Bit(31, 1) && !Bit(1, 2) && Bit(31, 2);
    assert !Bit(1, 3) && Bit(31, 3) && !Bit(1, 4) && Bit(31, 4);
    hide Bit;
    assert Differing(1, 31, 0, 2) == 1;
    assert Differing(1, 31, 0, 4) == 3;
  }

  // ---------- All stages ----------

  ghost predicate HasExact(corpus: Corpus, contentHash: string, exclude: Option<ArticleId>) {
    exists id: ArticleId :: id in corpus && exclude != Some(id) && corpus[id].contentHash == contentHash
  }

  /**
   * What a verdict means: the exact stage speaks exactly when an equal content hash is stored; the near
   * stage only names rows within the threshold, and never speaks for a zero hash; and with an uncut
   * band query, no verdict means that no stored hash is within the threshold.
   */
  ghost predicate IsVerdict(
      corpus: Corpus, contentHash: string, simhash: int, threshold: int, exclude: Option<ArticleId>, r: DedupResult)
  {
    && (r.isDuplicate <==> r.stage.Some?) && (r.isDuplicate <==> r.duplicateOf.Some?)
    && (r.stage == Some(Exact) <==> HasExact(corpus, contentHash, exclude))
    && (r.stage == Some(Exact) ==>
         r.duplicateOf.value in corpus && exclude != r.duplicateOf
           && corpus[r.duplicateOf.value].contentHash == contentHash)
    && (r.stage == Some(Near) ==>
         simhash != 0 && IsNear(corpus, simhash, threshold, exclude, r.duplicateOf.value)
         && r.hamming == Some(Distance(corpus, simhash, r.duplicateOf.value)))
    && (|Matches(corpus, simhash, exclude)| <= CANDIDATE_LIMIT && simhash != 0 && !r.isDuplicate ==>
         !HasNear(corpus, simhash, threshold, exclude))
  }

  /** Each stage runs only when the cheaper one found nothing, and a zero hash skips the near stage. */
  method FindDuplicate(
      corpus: Corpus, contentHash: string, simhash: int, threshold: int, exclude: Option<ArticleId>,
      exact: Option<ArticleId>, answer: seq<ArticleId>)
    returns (r: DedupResult)
    requires threshold <= BANDS - 1
    requires LegalExact(corpus, contentHash, exclude, exact) && LegalAnswer(corpus, simhash, exclude, answer)
    ensures IsVerdict(corpus, contentHash, simhash, threshold, exclude, r)
    ensures r.isDuplicate ==> r.duplicateOf != exclude
    ensures exact.Some? ==> r == DedupResult(true, exact, Some(Exact), Some(0), [])
    ensures exact.None? && simhash == 0 ==> r == NO_DUPLICATE
    ensures !r.isDuplicate && simhash != 0 ==> IsGrayList(corpus, simhash, threshold, answer, r.semanticCandidates)
  {
    hide Distance, SharesABand, IsGrayList;
    if exact.Some? {
      return DedupResult(true, exact, Some(Exact), Some(0), []);
    }
    if simhash == 0 {
      return NO_DUPLICATE;
    }
    r := FindNear(corpus, simhash, threshold, exclude, answer);
  }

  // ---------- Locality meets lookup ----------

  /**
   * What near-duplicate detection is for: replace any one word of a stored text, and if no more tallies of
   * the text are fragile than the threshold allows, the edited text is reported as a duplicate.
   */
  lemma OneWordEditIsCaught(
      corpus: Corpus, id: ArticleId, words: seq<string>, p: nat, word: string, h: FeatureHash, x: nat, y: nat,
      contentHash: string, threshold: int, exclude: Option<ArticleId>, r: DedupResult)
    requires p < |words| && IsSimHash(x, Features(words, 2), h) && IsSimHash(y, Features(words[p := word], 2), h)
    requires Comparable(corpus, exclude, id) && corpus[id].simhash == Some(ToSigned64(x)) && y != 0
    requires Fragile(Features(words, 2), h, 2, SimHash.BITS) <= threshold <= BANDS - 1
    requires |Matches(corpus, ToSigned64(y), exclude)| <= CANDIDATE_LIMIT
    requires IsVerdict(corpus, contentHash, ToSigned64(y), threshold, exclude, r)
    ensures IsNear(corpus, ToSigned64(y), threshold, exclude, id) && r.isDuplicate
  {
    hide Features, Fragile, Hamming, ToSigned64, ToUnsigned64, Band, SharesABand, Matches, Pow2;
    OneWordLocality(words, p, word, h, x, y);
    SignedStorageIsFaithful(x, 0, 0);
    SignedStorageIsFaithful(y, 0, 0);
    HammingSymmetric(x, y);
    ZeroIsZero();
    assert IsNear(corpus, ToSigned64(y), threshold, exclude, id);
  }

  /** Only the zero hash is stored as zero. */
  lemma ZeroIsZero()
    ensures ToUnsigned64(0) == 0
  {
    Small(0);
  }
}
