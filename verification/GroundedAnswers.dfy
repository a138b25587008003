/**
 Answering from retrieved text: the sentences of the results are deduplicated, scored against the question and
 ranked, and the best three are quoted with their citations.
 Splitting a result into sentences, normalising a sentence and extracting its terms are not modelled: sentences
 arrive with their normal form and terms.
 */
module GroundedAnswers {
  import opened Outcomes
  import opened Ordering
  import TextChunking

  const ANSWER_SENTENCE_LIMIT := 3
  const ANSWER_SENTENCE_MAX_CHARS := 320

  datatype Sentence = Sentence(text: string, normalized: string, terms: set<string>)

  datatype SearchResult = SearchResult(citation: string, sentences: seq<Sentence>)

  datatype Candidate = Candidate(score: nat, rank: nat, text: string, citation: string)

  datatype Answer = NothingFound | NothingConcise | Grounded(statements: seq<string>, citations: seq<string>)

  // A sentence in reading order, with the rank and citation of its result.
  datatype Reading = Reading(rank: nat, citation: string, sentence: Sentence)

  // ---------- candidates ----------

  function Trimmed(text: string): (r: string)
    ensures |r| <= ANSWER_SENTENCE_MAX_CHARS
  {
    if |text| <= ANSWER_SENTENCE_MAX_CHARS then text
    else text[..TextChunking.DropSpaces(text, 0, ANSWER_SENTENCE_MAX_CHARS - 3)] + "..."
  }

  function ReadingsOf(result: SearchResult, rank: nat): seq<Reading> {
    seq(|result.sentences|, i requires 0 <= i < |result.sentences| =>
      Reading(rank, result.citation, result.sentences[i]))
  }

  // Every sentence of the results, best result first.
  function Readings(results: seq<SearchResult>): seq<Reading> {
    if results == [] then []
    else Readings(results[..|results| - 1]) + ReadingsOf(results[|results| - 1], |results| - 1)
  }

  // How many sentences the first r results have.
  function SentencesBefore(results: seq<SearchResult>, r: nat): nat
    requires r <= |results|
  {
    if r == 0 then 0 else SentencesBefore(results, r - 1) + |results[r - 1].sentences|
  }

  lemma {:induction false} SentencesOfFront(results: seq<SearchResult>, n: nat, r: nat)
    requires r <= n <= |results|
    ensures SentencesBefore(results[..n], r) == SentencesBefore(results, r)
  {
    if r > 0 {
      SentencesOfFront(results, n, r - 1);
    }
  }

  lemma {:induction false} ReadingsCount(results: seq<SearchResult>)
    ensures |Readings(results)| == SentencesBefore(results, |results|)
  {
    if results != [] {
      ReadingsCount(results[..|results| - 1]);
      SentencesOfFront(results, |results| - 1, |results| - 1);
    }
  }

  // Every sentence of every result is read, once, result by result and in its own order.
  lemma {:induction false} ReadingAt(results: seq<SearchResult>, r: nat, i: nat)
    requires r < |results| && i < |results[r].sentences|
    ensures |Readings(results)| == SentencesBefore(results, |results|)
    ensures SentencesBefore(results, r) + i < |Readings(results)|
    ensures Readings(results)[SentencesBefore(results, r) + i] ==
            Reading(r, results[r].citation, results[r].sentences[i])
    decreases |results|
  {
    var n := |results| - 1;
    ReadingsCount(results);
    ReadingsCount(results[..n]);
    SentencesOfFront(results, n, n);
    SentencesOfFront(results, n, r);
    if r < n {
      ReadingAt(results[..n], r, i);
    }
  }

  // The sentence at p says something no earlier sentence says.
  predicate IsFirstOccurrence(readings: seq<Reading>, p: nat)
    requires p < |readings|
  {
    && readings[p].sentence.normalized != ""
    && forall q :: 0 <= q < p ==> readings[q].sentence.normalized != readings[p].sentence.normalized
  }

  function CandidateOf(queryTerms: set<string>, r: Reading): Candidate {
    Candidate(|queryTerms * r.sentence.terms|, r.rank, Trimmed(r.sentence.text), r.citation)
  }

  // The first occurrences, in reading order.
  function Candidates(queryTerms: set<string>, readings: seq<Reading>): seq<Candidate> {
    if readings == [] then []
    else
      var last := |readings| - 1;
      Candidates(queryTerms, readings[..last])
      + (if IsFirstOccurrence(readings, last) then [CandidateOf(queryTerms, readings[last])] else [])
  }

  // ---------- selection ----------

  // sort(key=(score, -rank), reverse=True), which keeps equal candidates in place
  predicate ComesFirst(a: Candidate, b: Candidate) { a.score > b.score || (a.score == b.score && a.rank <= b.rank) }

  function Positive(candidates: seq<Candidate>): seq<Candidate> {
    if candidates == [] then []
    else (if candidates[0].score > 0 then [candidates[0]] else []) + Positive(candidates[1..])
  }

  function FirstThree(candidates: seq<Candidate>): seq<Candidate> {
    if |candidates| <= ANSWER_SENTENCE_LIMIT then candidates else candidates[..ANSWER_SENTENCE_LIMIT]
  }

  function Selected(candidates: seq<Candidate>): seq<Candidate> {
    var sorted := Sort(ComesFirst, candidates);
    FirstThree(if Positive(sorted) == [] then sorted else Positive(sorted))
  }

  lemma LongerPrefix<T>(before: seq<T>, added: seq<T>, i: nat)
    requires i < |added|
    ensures before + added[..i] + [added[i]] == before + added[..i + 1]
  {
    assert added[..i + 1] == added[..i] + [added[i]];
  }

  predicate Says(readings: seq<Reading>, normalized: string) {
    exists q :: 0 <= q < |readings| && readings[q].sentence.normalized == normalized
  }

  // The set of what has been said so far.
  ghost predicate Remembers(seen: set<string>, readings: seq<Reading>) {
    forall n :: n in seen <==> n != "" && Says(readings, n)
  }

  lemma CandidatesSnoc(queryTerms: set<string>, readings: seq<Reading>, r: Reading)
    ensures Candidates(queryTerms, readings + [r]) ==
            Candidates(queryTerms, readings)
            + (if r.sentence.normalized != "" && !Says(readings, r.sentence.normalized) then
                  [CandidateOf(queryTerms, r)] else [])
    ensures forall n :: Says(readings + [r], n) <==> Says(readings, n) || n == r.sentence.normalized
  {
    var longer := readings + [r];
    assert longer[..|readings|] == readings;
    forall n ensures Says(longer, n) <==> Says(readings, n) || n == r.sentence.normalized {
      if Says(readings, n) {
        var q :| 0 <= q < |readings| && readings[q].sentence.normalized == n;
        assert longer[q].sentence.normalized == n;
      }
      if n == r.sentence.normalized {
        assert longer[|readings|].sentence.normalized == n;
      }
    }
    assert IsFirstOccurrence(longer, |readings|) <==>
           r.sentence.normalized != "" && !Says(readings, r.sentence.normalized) by {
      forall q | 0 <= q < |readings| ensures longer[q] == readings[q] {
      }
    }
  }

  // What reading one more sentence adds to the candidates and to what is remembered.
  lemma ReadOne(queryTerms: set<string>, readings: seq<Reading>, seen: set<string>, r: Reading)
    requires Remembers(seen, readings)
    ensures var counts := r.sentence.normalized != "" && r.sentence.normalized !in seen;
            && Remembers(if counts then seen + {r.sentence.normalized} else seen, readings + [r])
            && Candidates(queryTerms, readings + [r]) ==
               if counts then Candidates(queryTerms, readings) + [CandidateOf(queryTerms, r)]
               else Candidates(queryTerms, readings)
  {
    CandidatesSnoc(queryTerms, readings, r);
  }

  // The outer loop's body: one result's sentences.
  method ReadResult(
    queryTerms: set<string>, rank: nat, result: SearchResult, candidates: seq<Candidate>, seen: set<string>,
    ghost before: seq<Reading>)
    returns (candidates': seq<Candidate>, seen': set<string>)
    requires candidates == Candidates(queryTerms, before) && Remembers(seen, before)
    ensures candidates' == Candidates(queryTerms, before + ReadingsOf(result, rank))
    ensures Remembers(seen', before + ReadingsOf(result, rank))
  {
    candidates', seen' := candidates, seen;
    ghost var added := ReadingsOf(result, rank);
    ghost var read := before;
    assert before + added[..0] == before;
    for i := 0 to |result.sentences|
      invariant read == before + added[..i]
      invariant candidates' == Candidates(queryTerms, read) && Remembers(seen', read)
    {
      var sentence := result.sentences[i];
      var reading := Reading(rank, result.citation, sentence);
      ReadOne(queryTerms, read, seen', reading);
      LongerPrefix(before, added, i);
      read := read + [reading];
      if sentence.normalized != "" && sentence.normalized !in seen' {
        seen' := seen' + {sentence.normalized};
        candidates' := candidates' + [CandidateOf(queryTerms, reading)];
      }
    }
    assert added[..|result.sentences|] == added;
  }

  method SelectGroundedStatements(queryTerms: set<string>, results: seq<SearchResult>)
    returns (selected: seq<Candidate>)
    ensures selected == Selected(Candidates(queryTerms, Readings(results)))
  {
    var candidates: seq<Candidate> := [];
    var seen: set<string> := {};
    for rank := 0 to |results|
      invariant candidates == Candidates(queryTerms, Readings(results[..rank]))
      invariant Remembers(seen, Readings(results[..rank]))
    {
      candidates, seen := ReadResult(queryTerms, rank, results[rank], candidates, seen, Readings(results[..rank]));
      assert results[..rank + 1][..rank] == results[..rank];
    }
    assert results[..|results|] == results;
    var sorted := Sort(ComesFirst, candidates);
    var positive := Positive(sorted);
    selected := FirstThree(if positive == [] then sorted else positive);
  }

  function Texts(cs: seq<Candidate>): seq<string> { seq(|cs|, i requires 0 <= i < |cs| => cs[i].text) }

  function Citations(cs: seq<Candidate>): seq<string> { seq(|cs|, i requires 0 <= i < |cs| => cs[i].citation) }

  // dict.fromkeys: first occurrences only
  function Unrepeated(names: seq<string>): seq<string> {
    if names == [] then []
    else
      var front, last := names[..|names| - 1], names[|names| - 1];
      if last in front then Unrepeated(front) else Unrepeated(front) + [last]
  }

  function AnswerFor(queryTerms: set<string>, results: seq<SearchResult>): Answer {
    var selected := Selected(Candidates(queryTerms, Readings(results)));
    if results == [] then NothingFound
    else if selected == [] then NothingConcise
    else Grounded(Texts(selected), Unrepeated(Citations(selected)))
  }

  method BuildGroundedAnswer(queryTerms: set<string>, results: seq<SearchResult>) returns (answer: Answer)
    ensures answer == AnswerFor(queryTerms, results)
  {
    if results == [] {
      return NothingFound;
    }
    var selected := SelectGroundedStatements(queryTerms, results);
    if selected == [] {
      return NothingConcise;
    }
    answer := Grounded(Texts(selected), Unrepeated(Citations(selected)));
  }

  // ---------- an independent description of the ranking ----------

  // The candidates with one score, in reading order.
  function WithScore(candidates: seq<Candidate>, score: nat): seq<Candidate> {
    if candidates == [] then []
    else (if candidates[0].score == score then [candidates[0]] else []) + WithScore(candidates[1..], score)
  }

  // One bucket of candidates per score below `above` and from `bottom` up, the highest first.
  function Buckets(candidates: seq<Candidate>, above: nat, bottom: nat): seq<Candidate>
    decreases above
  {
    if above <= bottom then [] else WithScore(candidates, above - 1) + Buckets(candidates, above - 1, bottom)
  }

  predicate ScoresBelow(candidates: seq<Candidate>, above: nat) {
    forall i :: 0 <= i < |candidates| ==> candidates[i].score < above
  }

  predicate RanksNeverFall(candidates: seq<Candidate>) {
    forall i, j :: 0 <= i < j < |candidates| ==> candidates[i].rank <= candidates[j].rank
  }

  lemma {:induction false} InWithScore(candidates: seq<Candidate>, score: nat, c: Candidate)
    ensures c in WithScore(candidates, score) <==> c in candidates && c.score == score
  {
    if candidates != [] {
      InWithScore(candidates[1..], score, c);
    }
  }

  lemma WithScoreHas(candidates: seq<Candidate>, score: nat)
    ensures forall c :: c in WithScore(candidates, score) <==> c in candidates && c.score == score
  {
    forall c ensures c in WithScore(candidates, score) <==> c in candidates && c.score == score {
      InWithScore(candidates, score, c);
    }
  }

  lemma {:induction false} InBuckets(candidates: seq<Candidate>, above: nat, bottom: nat, c: Candidate)
    ensures c in Buckets(candidates, above, bottom) <==> c in candidates && bottom <= c.score < above
    decreases above
  {
    if above > bottom {
      InBuckets(candidates, above - 1, bottom, c);
      InWithScore(candidates, above - 1, c);
    }
  }

  lemma BucketsHave(candidates: seq<Candidate>, above: nat, bottom: nat)
    ensures forall c :: c in Buckets(candidates, above, bottom) <==> c in candidates && bottom <= c.score < above
  {
    forall c ensures c in Buckets(candidates, above, bottom) <==> c in candidates && bottom <= c.score < above {
      InBuckets(candidates, above, bottom, c);
    }
  }

  lemma {:induction false} InsertPast(x: Candidate, a: seq<Candidate>, b: seq<Candidate>)
    requires forall c :: c in a ==> !ComesFirst(x, c)
    ensures Insert(ComesFirst, x, a + b) == a + Insert(ComesFirst, x, b)
  {
    if a == [] {
      assert a + b == b;
    } else {
      assert (a + b)[1..] == a[1..] + b;
      InsertPast(x, a[1..], b);
    }
  }

  lemma OtherBucketUnchanged(x: Candidate, rest: seq<Candidate>, score: nat)
    requires score != x.score
    ensures WithScore([x] + rest, score) == WithScore(rest, score)
  {
    assert ([x] + rest)[1..] == rest;
  }

  lemma OwnBucketGains(x: Candidate, rest: seq<Candidate>)
    ensures WithScore([x] + rest, x.score) == [x] + WithScore(rest, x.score)
  {
    assert ([x] + rest)[1..] == rest;
  }

  lemma {:induction false} LowerBucketsUnchanged(x: Candidate, rest: seq<Candidate>, above: nat)
    requires above <= x.score
    ensures Buckets([x] + rest, above, 0) == Buckets(rest, above, 0)
    decreases above
  {
    if above > 0 {
      OtherBucketUnchanged(x, rest, above - 1);
      LowerBucketsUnchanged(x, rest, above - 1);
    }
  }

  predicate RanksBefore(x: Candidate, rest: seq<Candidate>) {
    forall i :: 0 <= i < |rest| ==> x.rank <= rest[i].rank
  }

  lemma OwnBucketsGain(x: Candidate, rest: seq<Candidate>)
    ensures Buckets([x] + rest, x.score + 1, 0) == [x] + Buckets(rest, x.score + 1, 0)
  {
    OwnBucketGains(x, rest);
    LowerBucketsUnchanged(x, rest, x.score);
  }

  lemma InsertFirst(x: Candidate, all: seq<Candidate>)
    requires forall c :: c in all ==> ComesFirst(x, c)
    ensures Insert(ComesFirst, x, all) == [x] + all
  {
    assert all != [] ==> all[0] in all;
  }

  // Inserting goes to the front of what scores no higher ...
  lemma InsertAtOwnBucket(x: Candidate, rest: seq<Candidate>)
    requires RanksBefore(x, rest)
    ensures Insert(ComesFirst, x, Buckets(rest, x.score + 1, 0)) == Buckets([x] + rest, x.score + 1, 0)
  {
    var all := Buckets(rest, x.score + 1, 0);
    forall c | c in all ensures ComesFirst(x, c) {
      InBuckets(rest, x.score + 1, 0, c);
    }
    InsertFirst(x, all);
    OwnBucketsGain(x, rest);
  }

  // ... and passes over every bucket above its own.
  lemma InsertPastBucket(x: Candidate, rest: seq<Candidate>, score: nat)
    requires x.score < score
    ensures Insert(ComesFirst, x, Buckets(rest, score + 1, 0))
         == WithScore([x] + rest, score) + Insert(ComesFirst, x, Buckets(rest, score, 0))
  {
    OtherBucketUnchanged(x, rest, score);
    WithScoreHas(rest, score);
    InsertPast(x, WithScore(rest, score), Buckets(rest, score, 0));
  }

  lemma {:induction false} InsertIntoBuckets(x: Candidate, rest: seq<Candidate>, above: nat)
    requires x.score < above && RanksBefore(x, rest)
    ensures Insert(ComesFirst, x, Buckets(rest, above, 0)) == Buckets([x] + rest, above, 0)
    decreases above
  {
    if above == x.score + 1 {
      InsertAtOwnBucket(x, rest);
    } else {
      InsertIntoBuckets(x, rest, above - 1);
      InsertPastBucket(x, rest, above - 1);
    }
  }

  lemma {:induction false} EmptyBuckets(above: nat)
    ensures Buckets([], above, 0) == []
    decreases above
  {
    if above > 0 {
      EmptyBuckets(above - 1);
    }
  }

  // The stable sort is: all candidates of the highest score in reading order, then of the next score, and so on.
  lemma {:induction false} SortIsBuckets(candidates: seq<Candidate>, above: nat)
    requires ScoresBelow(candidates, above) && RanksNeverFall(candidates)
    ensures Sort(ComesFirst, candidates) == Buckets(candidates, above, 0)
  {
    if candidates == [] {
      EmptyBuckets(above);
    } else {
      var x, rest := candidates[0], candidates[1..];
      SortIsBuckets(rest, above);
      InsertIntoBuckets(x, rest, above);
      assert [x] + rest == candidates;
    }
  }

  lemma {:induction false} PositiveConcat(a: seq<Candidate>, b: seq<Candidate>)
    ensures Positive(a + b) == Positive(a) + Positive(b)
  {
    if a == [] {
      assert a + b == b;
    } else {
      assert (a + b)[1..] == a[1..] + b;
      PositiveConcat(a[1..], b);
    }
  }

  lemma {:induction false} PositiveOfBucket(bucket: seq<Candidate>, score: nat)
    requires forall c :: c in bucket ==> c.score == score
    ensures Positive(bucket) == if score > 0 then bucket else []
  {
    if bucket != [] {
      assert bucket[0] in bucket && bucket == [bucket[0]] + bucket[1..];
      PositiveOfBucket(bucket[1..], score);
    }
  }

  lemma {:induction false} PositiveOfBuckets(candidates: seq<Candidate>, above: nat)
    ensures Positive(Buckets(candidates, above, 0)) == Buckets(candidates, above, 1)
    decreases above
  {
    if above > 0 {
      WithScoreHas(candidates, above - 1);
      PositiveOfBucket(WithScore(candidates, above - 1), above - 1);
      PositiveConcat(WithScore(candidates, above - 1), Buckets(candidates, above - 1, 0));
      PositiveOfBuckets(candidates, above - 1);
    }
  }

  predicate InRankOrder(readings: seq<Reading>, bound: nat) {
    && (forall i, j :: 0 <= i < j < |readings| ==> readings[i].rank <= readings[j].rank)
    && (forall i :: 0 <= i < |readings| ==> readings[i].rank <= bound)
  }

  lemma IntersectionIsSmaller(a: set<string>, b: set<string>)
    ensures |a * b| <= |a|
  {
    assert a == (a * b) + (a - b);
  }

  lemma {:induction false} CandidatesKeepReadingOrder(queryTerms: set<string>, readings: seq<Reading>, bound: nat)
    requires InRankOrder(readings, bound)
    ensures RanksNeverFall(Candidates(queryTerms, readings))
    ensures ScoresBelow(Candidates(queryTerms, readings), |queryTerms| + 1)
    ensures forall i :: 0 <= i < |Candidates(queryTerms, readings)| ==>
              Candidates(queryTerms, readings)[i].rank <= bound
    decreases |readings|
  {
    if readings != [] {
      var last := |readings| - 1;
      CandidatesKeepReadingOrder(queryTerms, readings[..last], readings[last].rank);
      IntersectionIsSmaller(queryTerms, readings[last].sentence.terms);
    }
  }

  lemma {:induction false} ReadingsAreRanked(results: seq<SearchResult>)
    ensures InRankOrder(Readings(results), |results|)
  {
    if results != [] {
      ReadingsAreRanked(results[..|results| - 1]);
    }
  }

  lemma SomeMember(candidates: seq<Candidate>) returns (c: Candidate)
    requires candidates != []
    ensures c in candidates
  {
    c := candidates[0];
  }

  // The selection, described without sorting: the first three of the positive buckets, or of all when none scores.
  lemma SelectionIsTopThree(queryTerms: set<string>, results: seq<SearchResult>)
    ensures var candidates, above := Candidates(queryTerms, Readings(results)), |queryTerms| + 1;
            var ranked := if exists c :: c in candidates && c.score > 0 then Buckets(candidates, above, 1)
                          else Buckets(candidates, above, 0);
            Selected(candidates) == if |ranked| > 3 then ranked[..3] else ranked
  {
    var candidates, above := Candidates(queryTerms, Readings(results)), |queryTerms| + 1;
    ReadingsAreRanked(results);
    CandidatesKeepReadingOrder(queryTerms, Readings(results), |results|);
    SortIsBuckets(candidates, above);
    PositiveOfBuckets(candidates, above);
    BucketsHave(candidates, above, 1);
    if exists c :: c in candidates && c.score > 0 {
      var c :| c in candidates && c.score > 0;
      assert c in Buckets(candidates, above, 1);
    } else if Buckets(candidates, above, 1) != [] {
      var c := SomeMember(Buckets(candidates, above, 1));
      assert false;
    }
  }

  lemma {:induction false} CandidateComesFromReading(
    queryTerms: set<string>, readings: seq<Reading>, c: Candidate)
    returns (p: nat)
    requires c in Candidates(queryTerms, readings)
    ensures p < |readings| && IsFirstOccurrence(readings, p) && c == CandidateOf(queryTerms, readings[p])
    decreases |readings|
  {
    var last := |readings| - 1;
    if c in Candidates(queryTerms, readings[..last]) {
      p := CandidateComesFromReading(queryTerms, readings[..last], c);
      assert IsFirstOccurrence(readings[..last], p);
      assert forall q :: 0 <= q < p ==> readings[..last][q] == readings[q];
    } else {
      p := last;
    }
  }

  // A text that fits is quoted whole; a longer one is cut to 317 characters, stripped of white space at its end, and
  // marked with dots.
  lemma TrimmedExactly(text: string)
    ensures if |text| <= 320 then Trimmed(text) == text
            else exists k: nat ::
                   && k <= 317 && Trimmed(text) == text[..k] + "..."
                   && (k > 0 ==> !TextChunking.IsSpace(text[k - 1]))
                   && (forall i :: k <= i < 317 ==> TextChunking.IsSpace(text[i]))
  {
    if |text| > 320 {
      var k := TextChunking.DropSpaces(text, 0, 317);
      forall i | k <= i < 317 ensures TextChunking.IsSpace(text[i]) {
        if !TextChunking.IsSpace(text[i]) {
          TextChunking.DroppedAreSpaces(text, 0, 317, i);
        }
      }
      assert Trimmed(text) == text[..k] + "...";
    }
  }

  // A candidate's score is the number of the question's terms that its sentence contains.
  lemma ScoreCountsSharedTerms(queryTerms: set<string>, r: Reading)
    ensures CandidateOf(queryTerms, r).score == |set t | t in queryTerms && t in r.sentence.terms|
    ensures CandidateOf(queryTerms, r).rank == r.rank && CandidateOf(queryTerms, r).citation == r.citation
    ensures CandidateOf(queryTerms, r).text == Trimmed(r.sentence.text)
  {
    assert (set t | t in queryTerms && t in r.sentence.terms) == queryTerms * r.sentence.terms;
  }

  lemma {:induction false} FirstOccurrenceIsCandidate(queryTerms: set<string>, readings: seq<Reading>, p: nat)
    requires p < |readings| && IsFirstOccurrence(readings, p)
    ensures CandidateOf(queryTerms, readings[p]) in Candidates(queryTerms, readings)
    decreases |readings|
  {
    var last := |readings| - 1;
    if p < last {
      assert forall q :: 0 <= q <= p ==> readings[..last][q] == readings[q];
      FirstOccurrenceIsCandidate(queryTerms, readings[..last], p);
    }
  }

  lemma {:induction false} PositiveIsPart(candidates: seq<Candidate>)
    ensures forall c :: c in Positive(candidates) <==> c in candidates && c.score > 0
  {
    if candidates != [] {
      PositiveIsPart(candidates[1..]);
    }
  }

  lemma SelectedAreCandidates(candidates: seq<Candidate>)
    ensures forall c :: c in Selected(candidates) ==> c in candidates
    ensures Selected(candidates) == [] <==> candidates == []
  {
    SortPermutes(ComesFirst, candidates);
    SameElements(Sort(ComesFirst, candidates), candidates);
    PositiveIsPart(Sort(ComesFirst, candidates));
  }

  lemma {:induction false} UnrepeatedKeeps(names: seq<string>)
    ensures forall n :: n in Unrepeated(names) <==> n in names
    ensures forall i, j :: 0 <= i < j < |Unrepeated(names)| ==> Unrepeated(names)[i] != Unrepeated(names)[j]
  {
    if names != [] {
      var front, last := names[..|names| - 1], names[|names| - 1];
      UnrepeatedKeeps(front);
      assert names == front + [last];
      var kept := Unrepeated(front);
      if last !in front {
        forall i, j | 0 <= i < j < |kept + [last]| ensures (kept + [last])[i] != (kept + [last])[j] {
          assert kept[i] in kept;
        }
      }
    }
  }

  // The statement is the trimmed text of a sentence of a supplied result with this citation.
  ghost predicate IsQuotedFrom(results: seq<SearchResult>, statement: string, citation: string) {
    exists r, i :: 0 <= r < |results| && 0 <= i < |results[r].sentences|
      && results[r].citation == citation && statement == Trimmed(results[r].sentences[i].text)
  }

  lemma {:induction false} ReadingIsOfResult(results: seq<SearchResult>, p: nat)
    requires p < |Readings(results)|
    ensures var reading := Readings(results)[p];
            && reading.rank < |results| && reading.citation == results[reading.rank].citation
            && reading.sentence in results[reading.rank].sentences
  {
    var n := |results| - 1;
    var earlier := Readings(results[..n]);
    if p < |earlier| {
      ReadingIsOfResult(results[..n], p);
    } else {
      assert Readings(results)[p] == ReadingsOf(results[n], n)[p - |earlier|];
    }
  }

  lemma CandidateIsQuoted(queryTerms: set<string>, results: seq<SearchResult>, c: Candidate)
    requires c in Candidates(queryTerms, Readings(results))
    ensures IsQuotedFrom(results, c.text, c.citation)
  {
    var p := CandidateComesFromReading(queryTerms, Readings(results), c);
    ReadingIsOfResult(results, p);
    var reading := Readings(results)[p];
    var i :| 0 <= i < |results[reading.rank].sentences| && results[reading.rank].sentences[i] == reading.sentence;
    assert c.text == Trimmed(results[reading.rank].sentences[i].text);
  }

  ghost predicate IsCited(results: seq<SearchResult>, statement: string, citations: seq<string>) {
    exists c :: c in citations && IsQuotedFrom(results, statement, c)
  }

  ghost predicate IsQuoted(results: seq<SearchResult>, statements: seq<string>, citation: string) {
    exists k :: 0 <= k < |statements| && IsQuotedFrom(results, statements[k], citation)
  }

  // Every statement is quoted from a result that is cited, every citation is of a result that is quoted, and none is
  // printed twice.
  ghost predicate CitesWhatItQuotes(results: seq<SearchResult>, statements: seq<string>, citations: seq<string>) {
    && (forall k :: 0 <= k < |statements| ==> IsCited(results, statements[k], citations))
    && (forall c :: c in citations ==> IsQuoted(results, statements, c))
    && Distinct(citations)
  }

  lemma StatementIsCited(queryTerms: set<string>, results: seq<SearchResult>, selected: seq<Candidate>, k: nat)
    requires k < |selected| && selected[k] in Candidates(queryTerms, Readings(results))
    ensures IsCited(results, Texts(selected)[k], Unrepeated(Citations(selected)))
  {
    CandidateIsQuoted(queryTerms, results, selected[k]);
    UnrepeatedKeeps(Citations(selected));
    assert Citations(selected)[k] == selected[k].citation;
  }

  lemma CitationIsQuoted(queryTerms: set<string>, results: seq<SearchResult>, selected: seq<Candidate>, k: nat)
    requires k < |selected| && selected[k] in Candidates(queryTerms, Readings(results))
    ensures IsQuoted(results, Texts(selected), Citations(selected)[k])
  {
    CandidateIsQuoted(queryTerms, results, selected[k]);
    assert IsQuotedFrom(results, Texts(selected)[k], Citations(selected)[k]);
  }

  lemma SelectionCitesWhatItQuotes(queryTerms: set<string>, results: seq<SearchResult>, selected: seq<Candidate>)
    requires forall c :: c in selected ==> c in Candidates(queryTerms, Readings(results))
    ensures CitesWhatItQuotes(results, Texts(selected), Unrepeated(Citations(selected)))
  {
    var texts, citations := Texts(selected), Unrepeated(Citations(selected));
    UnrepeatedKeeps(Citations(selected));
    forall k | 0 <= k < |texts| ensures IsCited(results, texts[k], citations) {
      assert selected[k] in selected;
      StatementIsCited(queryTerms, results, selected, k);
    }
    forall c | c in citations ensures IsQuoted(results, texts, c) {
      var k :| 0 <= k < |selected| && Citations(selected)[k] == c;
      assert selected[k] in selected;
      CitationIsQuoted(queryTerms, results, selected, k);
    }
  }

  // Some sentence says something.
  ghost predicate HasText(readings: seq<Reading>) { exists n :: n != "" && Says(readings, n) }

  lemma HasTextSnoc(readings: seq<Reading>, r: Reading)
    ensures HasText(readings + [r]) <==> HasText(readings) || r.sentence.normalized != ""
  {
    CandidatesSnoc({}, readings, r);
    if r.sentence.normalized != "" {
      assert Says(readings + [r], r.sentence.normalized);
    }
  }

  lemma {:induction false} GroundedExactly(queryTerms: set<string>, readings: seq<Reading>)
    ensures Candidates(queryTerms, readings) != [] <==> HasText(readings)
    decreases |readings|
  {
    if readings != [] {
      var front, r := readings[..|readings| - 1], readings[|readings| - 1];
      assert readings == front + [r];
      GroundedExactly(queryTerms, front);
      HasTextSnoc(front, r);
      CandidatesSnoc(queryTerms, front, r);
    }
  }

  // Some sentence of some result is not empty once normalised.
  predicate SomeSentenceSays(results: seq<SearchResult>) {
    exists r, i :: 0 <= r < |results| && 0 <= i < |results[r].sentences| && results[r].sentences[i].normalized != ""
  }

  lemma TextExactly(results: seq<SearchResult>)
    ensures HasText(Readings(results)) <==> SomeSentenceSays(results)
  {
    if SomeSentenceSays(results) {
      var r, i :| 0 <= r < |results| && 0 <= i < |results[r].sentences| && results[r].sentences[i].normalized != "";
      ReadingAt(results, r, i);
      assert Says(Readings(results), results[r].sentences[i].normalized);
    }
    if HasText(Readings(results)) {
      var n :| n != "" && Says(Readings(results), n);
      var p :| 0 <= p < |Readings(results)| && Readings(results)[p].sentence.normalized == n;
      ReadingIsOfResult(results, p);
      var reading := Readings(results)[p];
      var i :| 0 <= i < |results[reading.rank].sentences| && results[reading.rank].sentences[i] == reading.sentence;
      assert results[reading.rank].sentences[i].normalized != "";
    }
  }

  // An answer quotes one to three statements and cites exactly what it quotes. There is an answer exactly when some
  // sentence has text.
  lemma AnswersCiteSuppliedResults(queryTerms: set<string>, results: seq<SearchResult>)
    ensures var answer := AnswerFor(queryTerms, results);
            && (answer.NothingFound? <==> results == [])
            && (answer.Grounded? <==> SomeSentenceSays(results))
            && (answer.Grounded? ==>
                  && 1 <= |answer.statements| <= 3
                  && CitesWhatItQuotes(results, answer.statements, answer.citations))
  {
    var readings := Readings(results);
    var candidates := Candidates(queryTerms, readings);
    SelectedAreCandidates(candidates);
    SelectionCitesWhatItQuotes(queryTerms, results, Selected(candidates));
    GroundedExactly(queryTerms, readings);
    TextExactly(results);
    if results == [] {
      assert readings == [];
    }
  }
}
