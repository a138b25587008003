/**
 The deterministic embedding provider, up to the integer vector it accumulates: each token adds or subtracts one in
 the bucket its digest selects. SHA-256 is a function from tokens to digests and lower-casing a function on strings;
 the final division by the square root of the sum of squares is not modelled.
 */
module HashEmbedding {
  import opened Ordering
  import opened TextChunking

  // The first four digest bytes as a number, and whether the fifth is even.
  datatype Digest = Digest(number: nat, positive: bool)

  type Hash = string -> Digest

  type pos = n: nat | n > 0 witness 1

  // ---------- tokens ----------

  // The end of the word that starts `text`.
  function WordEnd(text: string): (e: nat)
    ensures e <= |text|
  {
    if text == "" || IsSpace(text[0]) then 0 else 1 + WordEnd(text[1..])
  }

  // str.split: the maximal runs of characters that are not whitespace.
  function Words(text: string): seq<string>
    decreases |text|
  {
    if text == "" then []
    else if IsSpace(text[0]) then Words(text[1..])
    else [text[..WordEnd(text)]] + Words(text[WordEnd(text)..])
  }

  function Lowered(words: seq<string>, lower: string -> string): (r: seq<string>)
    ensures |r| == |words|
  {
    seq(|words|, k requires 0 <= k < |words| => lower(words[k]))
  }

  // A text without words stands for itself.
  function Tokens(text: string, lower: string -> string): (tokens: seq<string>)
    ensures tokens != []
  {
    if Words(text) == [] then [lower(text)] else Lowered(Words(text), lower)
  }

  // ---------- the accumulated vector ----------

  function Zeros(n: nat): seq<int> { seq(n, _ => 0) }

  function Sign(d: Digest): int { if d.positive then 1 else -1 }

  function Bucket(d: Digest, dimensions: pos): (b: nat)
    ensures b < dimensions
  {
    d.number % dimensions
  }

  function Added(v: seq<int>, d: Digest): (r: seq<int>)
    requires v != []
    ensures |r| == |v|
  {
    var b := Bucket(d, |v|);
    v[b := v[b] + Sign(d)]
  }

  function Accumulated(v: seq<int>, tokens: seq<string>, hash: Hash): (r: seq<int>)
    requires v != []
    ensures |r| == |v|
    decreases |tokens|
  {
    if tokens == [] then v
    else Added(Accumulated(v, tokens[..|tokens| - 1], hash), hash(tokens[|tokens| - 1]))
  }

  function Embedded(text: string, dimensions: pos, lower: string -> string, hash: Hash): seq<int> {
    Accumulated(Zeros(dimensions), Tokens(text, lower), hash)
  }

  lemma AccumulatedSnoc(v: seq<int>, tokens: seq<string>, i: nat, hash: Hash)
    requires v != [] && i < |tokens|
    ensures Accumulated(v, tokens[..i + 1], hash) == Added(Accumulated(v, tokens[..i], hash), hash(tokens[i]))
  {
    assert tokens[..i + 1][..i] == tokens[..i];
  }

  // vector[index] += sign
  method AddInPlace(vector: array<int>, digest: Digest)
    requires vector.Length > 0
    modifies vector
    ensures vector[..] == Added(old(vector[..]), digest)
  {
    var index := Bucket(digest, vector.Length);
    vector[index] := vector[index] + Sign(digest);
  }

  // HashEmbeddingProvider._embed, before normalisation
  method Embed(text: string, dimensions: pos, lower: string -> string, hash: Hash) returns (vector: array<int>)
    ensures vector[..] == Embedded(text, dimensions, lower, hash)
  {
    vector := new int[dimensions](_ => 0);
    var tokens := Tokens(text, lower);
    ghost var start := Zeros(dimensions);
    assert vector[..] == start;
    for i := 0 to |tokens|
      invariant vector[..] == Accumulated(start, tokens[..i], hash)
    {
      AccumulatedSnoc(start, tokens, i, hash);
      AddInPlace(vector, hash(tokens[i]));
    }
    assert tokens[..|tokens|] == tokens;
  }

  // ---------- what the vector means ----------

  predicate Votes(token: string, bucket: nat, positive: bool, dimensions: pos, hash: Hash) {
    Bucket(hash(token), dimensions) == bucket && hash(token).positive == positive
  }

  // How many tokens fall in a bucket with the given sign.
  function Count(tokens: seq<string>, bucket: nat, positive: bool, dimensions: pos, hash: Hash): nat {
    if tokens == [] then 0
    else (if Votes(tokens[0], bucket, positive, dimensions, hash) then 1 else 0)
         + Count(tokens[1..], bucket, positive, dimensions, hash)
  }

  lemma {:induction false} CountConcat(
    a: seq<string>, b: seq<string>, bucket: nat, positive: bool, dimensions: pos, hash: Hash)
    ensures Count(a + b, bucket, positive, dimensions, hash)
         == Count(a, bucket, positive, dimensions, hash) + Count(b, bucket, positive, dimensions, hash)
  {
    if a == [] {
      assert a + b == b;
    } else {
      assert (a + b)[1..] == a[1..] + b;
      CountConcat(a[1..], b, bucket, positive, dimensions, hash);
    }
  }

  // Where an element can be taken out of a list.
  lemma SplitAt(s: seq<string>, x: string) returns (left: seq<string>, right: seq<string>)
    requires x in s
    ensures s == left + ([x] + right)
    ensures multiset(left + right) == multiset(s) - multiset{x}
  {
    var j :| 0 <= j < |s| && s[j] == x;
    left, right := s[..j], s[j + 1..];
    assert s == left + ([x] + right);
  }

  lemma {:induction false} CountPermutes(
    a: seq<string>, b: seq<string>, bucket: nat, positive: bool, dimensions: pos, hash: Hash)
    requires multiset(a) == multiset(b)
    ensures Count(a, bucket, positive, dimensions, hash) == Count(b, bucket, positive, dimensions, hash)
    decreases |a|
  {
    if a == [] {
      assert |multiset(b)| == 0;
    } else {
      var x := a[0];
      assert x in multiset(b);
      var left, right := SplitAt(b, x);
      TailOf(a);
      CountPermutes(a[1..], left + right, bucket, positive, dimensions, hash);
      CountConcat(left, right, bucket, positive, dimensions, hash);
      CountConcat(left, [x] + right, bucket, positive, dimensions, hash);
      assert ([x] + right)[1..] == right;
    }
  }

  // Every coordinate of the accumulated vector is the start value plus the positive votes less the negative ones.
  lemma {:induction false} CoordinateIsBalance(v: seq<int>, tokens: seq<string>, bucket: nat, hash: Hash)
    requires bucket < |v|
    ensures Accumulated(v, tokens, hash)[bucket]
         == v[bucket] + Count(tokens, bucket, true, |v|, hash) - Count(tokens, bucket, false, |v|, hash)
    decreases |tokens|
  {
    if tokens != [] {
      var front, last := tokens[..|tokens| - 1], tokens[|tokens| - 1];
      CoordinateIsBalance(v, front, bucket, hash);
      assert tokens == front + [last];
      CountConcat(front, [last], bucket, true, |v|, hash);
      CountConcat(front, [last], bucket, false, |v|, hash);
    }
  }

  // The vector depends only on how often each token occurs.
  lemma OrderDoesNotMatter(a: seq<string>, b: seq<string>, dimensions: pos, hash: Hash)
    requires multiset(a) == multiset(b)
    ensures Accumulated(Zeros(dimensions), a, hash) == Accumulated(Zeros(dimensions), b, hash)
  {
    forall i: nat | i < dimensions
      ensures Accumulated(Zeros(dimensions), a, hash)[i] == Accumulated(Zeros(dimensions), b, hash)[i]
    {
      CoordinateIsBalance(Zeros(dimensions), a, i, hash);
      CoordinateIsBalance(Zeros(dimensions), b, i, hash);
      CountPermutes(a, b, i, true, dimensions, hash);
      CountPermutes(a, b, i, false, dimensions, hash);
    }
  }

  function Sum(a: seq<int>, b: seq<int>): seq<int>
    requires |a| == |b|
  {
    seq(|a|, i requires 0 <= i < |a| => a[i] + b[i])
  }

  lemma ConcatenationAdds(a: seq<string>, b: seq<string>, dimensions: pos, hash: Hash)
    ensures Accumulated(Zeros(dimensions), a + b, hash)
         == Sum(Accumulated(Zeros(dimensions), a, hash), Accumulated(Zeros(dimensions), b, hash))
  {
    forall i: nat | i < dimensions
      ensures Accumulated(Zeros(dimensions), a + b, hash)[i]
           == Accumulated(Zeros(dimensions), a, hash)[i] + Accumulated(Zeros(dimensions), b, hash)[i]
    {
      CoordinateIsBalance(Zeros(dimensions), a, i, hash);
      CoordinateIsBalance(Zeros(dimensions), b, i, hash);
      CoordinateIsBalance(Zeros(dimensions), a + b, i, hash);
      CountConcat(a, b, i, true, dimensions, hash);
      CountConcat(a, b, i, false, dimensions, hash);
    }
  }

  // ---------- texts ----------

  lemma {:induction false} WordEndWithin(a: string, b: string)
    requires b == "" || IsSpace(b[0]) || (a != "" && IsSpace(a[|a| - 1]))
    ensures WordEnd(a + b) == WordEnd(a)
  {
    if a == "" {
      assert a + b == b;
    } else if !IsSpace(a[0]) {
      assert (a + b)[1..] == a[1..] + b;
      WordEndWithin(a[1..], b);
    }
  }

  lemma WordsStep(t: string)
    requires t != "" && !IsSpace(t[0])
    ensures Words(t) == [t[..WordEnd(t)]] + Words(t[WordEnd(t)..])
  {
  }

  lemma Halves(a: string, b: string, e: nat)
    requires e <= |a|
    ensures (a + b)[..e] == a[..e] && (a + b)[e..] == a[e..] + b
  {
  }

  // The first word of a text that starts with one, and what is left for the others.
  lemma FirstWord(a: string, b: string)
    requires a != "" && !IsSpace(a[0])
    requires b == "" || IsSpace(a[|a| - 1]) || IsSpace(b[0])
    ensures var e := WordEnd(a); e > 0 && Words(a + b) == [a[..e]] + Words(a[e..] + b)
  {
    WordEndWithin(a, b);
    WordsStep(a + b);
    Halves(a, b, WordEnd(a));
  }

  // A text is cut into words wherever it is cut next to white space ...
  lemma {:induction false} WordsConcat(a: string, b: string)
    requires a == "" || b == "" || IsSpace(a[|a| - 1]) || IsSpace(b[0])
    ensures Words(a + b) == Words(a) + Words(b)
    decreases |a|
  {
    if a == "" {
      assert a + b == b;
    } else if IsSpace(a[0]) {
      assert (a + b)[1..] == a[1..] + b;
      WordsConcat(a[1..], b);
    } else {
      FirstWord(a, b);
      WordsConcat(a[WordEnd(a)..], b);
    }
  }

  lemma {:induction false} WordEndOfRun(w: string)
    requires forall i :: 0 <= i < |w| ==> !IsSpace(w[i])
    ensures WordEnd(w) == |w|
  {
    if w != "" {
      WordEndOfRun(w[1..]);
    }
  }

  lemma {:induction false} NoWords(t: string)
    requires forall i :: 0 <= i < |t| ==> IsSpace(t[i])
    ensures Words(t) == []
    decreases |t|
  {
    if t != "" {
      NoWords(t[1..]);
    }
  }

  // ... and white space alone holds no word, while a run without any is one: together this says what the words of
  // every text are.
  lemma WordsOfRuns(t: string)
    ensures (forall i :: 0 <= i < |t| ==> IsSpace(t[i])) ==> Words(t) == []
    ensures t != "" && (forall i :: 0 <= i < |t| ==> !IsSpace(t[i])) ==> Words(t) == [t]
  {
    if forall i :: 0 <= i < |t| ==> IsSpace(t[i]) {
      NoWords(t);
    }
    if t != "" && forall i :: 0 <= i < |t| ==> !IsSpace(t[i]) {
      WordEndOfRun(t);
      assert t[..|t|] == t && t[|t|..] == "";
    }
  }

  lemma SplitIsWords(text: string, i: nat)
    requires i < |text| && !IsSpace(text[i])
    ensures Words(text) != []
    decreases |text|
  {
    if IsSpace(text[0]) {
      SplitIsWords(text[1..], i - 1);
    }
  }

  // The tokens are the lower-cased words, in order; a text of white space alone is its own, lower-cased, token.
  lemma TokensExactly(text: string, lower: string -> string)
    ensures if forall i :: 0 <= i < |text| ==> IsSpace(text[i]) then Tokens(text, lower) == [lower(text)]
            else
              && |Tokens(text, lower)| == |Words(text)|
              && forall k :: 0 <= k < |Words(text)| ==> Tokens(text, lower)[k] == lower(Words(text)[k])
  {
    if forall i :: 0 <= i < |text| ==> IsSpace(text[i]) {
      NoWords(text);
    } else {
      var i :| 0 <= i < |text| && !IsSpace(text[i]);
      SplitIsWords(text, i);
    }
  }

  // A token's bucket is its digest's number modulo the number of dimensions.
  lemma BucketIsRemainder(d: Digest, dimensions: pos)
    ensures Bucket(d, dimensions) < dimensions
    ensures exists q: nat :: d.number == q * dimensions + Bucket(d, dimensions)
  {
    var q := d.number / dimensions;
    assert d.number == q * dimensions + Bucket(d, dimensions);
  }

  lemma LoweredConcat(a: seq<string>, b: seq<string>, lower: string -> string)
    ensures Lowered(a + b, lower) == Lowered(a, lower) + Lowered(b, lower)
  {
  }

  // Joining two texts that have words by white space adds their vectors.
  lemma JoinedTextsAdd(a: string, b: string, dimensions: pos, lower: string -> string, hash: Hash)
    requires Words(a) != [] && Words(b) != [] && IsSpace(b[0])
    ensures Embedded(a + b, dimensions, lower, hash)
         == Sum(Embedded(a, dimensions, lower, hash), Embedded(b, dimensions, lower, hash))
  {
    WordsConcat(a, b);
    LoweredConcat(Words(a), Words(b), lower);
    ConcatenationAdds(Tokens(a, lower), Tokens(b, lower), dimensions, hash);
  }

  // ---------- size ----------

  function Abs(x: int): nat { if x < 0 then -x else x }

  // The sum of the magnitudes.
  function Norm(v: seq<int>): nat {
    if v == [] then 0 else Abs(v[0]) + Norm(v[1..])
  }

  lemma {:induction false} NormOfUpdate(v: seq<int>, i: nat, x: int)
    requires i < |v|
    ensures Norm(v[i := x]) == Norm(v) - Abs(v[i]) + Abs(x)
  {
    if i == 0 {
      assert v[i := x][1..] == v[1..];
    } else {
      assert v[i := x][1..] == v[1..][i - 1 := x];
      NormOfUpdate(v[1..], i - 1, x);
    }
  }

  lemma {:induction false} NormOfZeros(v: seq<int>)
    requires forall i :: 0 <= i < |v| ==> v[i] == 0
    ensures Norm(v) == 0
  {
    if v != [] {
      NormOfZeros(v[1..]);
    }
  }

  lemma AddingMovesByOne(v: seq<int>, d: Digest)
    requires v != []
    ensures Norm(Added(v, d)) == Norm(v) + 1 || Norm(Added(v, d)) == Norm(v) - 1
  {
    var i := Bucket(d, |v|);
    NormOfUpdate(v, i, v[i] + Sign(d));
  }

  lemma ParityAlternates(n: nat, count: nat, next: nat)
    requires n <= count && n % 2 == count % 2 && (next == n + 1 || next == n - 1)
    ensures next <= count + 1 && next % 2 == (count + 1) % 2
  {
  }

  lemma {:induction false} NormIsBounded(tokens: seq<string>, dimensions: pos, hash: Hash)
    ensures Norm(Accumulated(Zeros(dimensions), tokens, hash)) <= |tokens|
    ensures Norm(Accumulated(Zeros(dimensions), tokens, hash)) % 2 == |tokens| % 2
    decreases |tokens|
  {
    if tokens == [] {
      NormOfZeros(Zeros(dimensions));
    } else {
      var front := tokens[..|tokens| - 1];
      var v := Accumulated(Zeros(dimensions), front, hash);
      NormIsBounded(front, dimensions, hash);
      AddingMovesByOne(v, hash(tokens[|tokens| - 1]));
      ParityAlternates(Norm(v), |front|, Norm(Accumulated(Zeros(dimensions), tokens, hash)));
    }
  }

  // A text with an odd number of words, or with none, never embeds as the zero vector.
  lemma OddTextsAreNotZero(text: string, dimensions: pos, lower: string -> string, hash: Hash)
    requires |Tokens(text, lower)| % 2 == 1
    ensures Embedded(text, dimensions, lower, hash) != Zeros(dimensions)
  {
    NormIsBounded(Tokens(text, lower), dimensions, hash);
    NormOfZeros(Zeros(dimensions));
  }

  // As many tokens vote for the bucket as against it.
  predicate IsBalanced(tokens: seq<string>, bucket: nat, dimensions: pos, hash: Hash) {
    Count(tokens, bucket, true, dimensions, hash) == Count(tokens, bucket, false, dimensions, hash)
  }

  // The vector is zero exactly when every bucket is balanced; only then is it returned without being divided.
  lemma ZeroExactlyWhenBalanced(text: string, dimensions: pos, lower: string -> string, hash: Hash)
    ensures Embedded(text, dimensions, lower, hash) == Zeros(dimensions)
      <==> forall i: nat | i < dimensions :: IsBalanced(Tokens(text, lower), i, dimensions, hash)
  {
    var v := Embedded(text, dimensions, lower, hash);
    forall i: nat | i < dimensions ensures v[i] == 0 <==> IsBalanced(Tokens(text, lower), i, dimensions, hash) {
      CoordinateIsBalance(Zeros(dimensions), Tokens(text, lower), i, hash);
    }
    if v == Zeros(dimensions) {
      forall i: nat | i < dimensions ensures IsBalanced(Tokens(text, lower), i, dimensions, hash) {
        assert v[i] == Zeros(dimensions)[i];
      }
    }
  }
}
