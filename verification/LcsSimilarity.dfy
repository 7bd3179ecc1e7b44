/** The round-trip verifier's text similarity: the length of a longest common
    subsequence of the normalized texts, over the length of the longer one. */
module LcsSimilarity {
  predicate Dropped(ch: char) {
    ch in " \t\r\n。，、！？；：,.!?;:\"'()[]{}<>《》“”‘’"
  }

  /** `lower` is the host language's case mapping, which may yield several
      characters for one. */
  function Normalize(text: string, lower: char -> string): string {
    if text == [] then []
    else (if Dropped(text[0]) then [] else lower(text[0])) + Normalize(text[1..], lower)
  }

  lemma {:induction false} NormalizeConcat(s: string, t: string, lower: char -> string)
    ensures Normalize(s + t, lower) == Normalize(s, lower) + Normalize(t, lower)
  {
    if s == [] {
      assert s + t == t;
    } else {
      assert (s + t)[1..] == s[1..] + t;
      NormalizeConcat(s[1..], t, lower);
    }
  }

  predicate Within(at: seq<nat>, n: nat) { forall k :: 0 <= k < |at| ==> at[k] < n }

  /** The images of the characters at these positions, one after the other. */
  function Images(text: string, at: seq<nat>, lower: char -> string): string
    requires Within(at, |text|)
    decreases |at|
  {
    if at == [] then []
    else
      Images(text, at[..|at| - 1], lower) + lower(text[at[|at| - 1]])
  }

  /** The positions of a text that are kept, in order. */
  ghost predicate Keeps(text: string, kept: seq<nat>) {
    && Within(kept, |text|)
    && (forall i, j :: 0 <= i < j < |kept| ==> kept[i] < kept[j])
    && (forall k :: 0 <= k < |kept| ==> !Dropped(text[kept[k]]))
    && (forall i :: 0 <= i < |text| && !Dropped(text[i]) ==> i in kept)
  }

  lemma KeepsSnoc(before: string, ch: char, kept: seq<nat>)
    requires Keeps(before, kept)
    ensures Keeps(before + [ch], if Dropped(ch) then kept else kept + [|before|])
  {
    hide Dropped;
    var text, all := before + [ch], if Dropped(ch) then kept else kept + [|before|];
    forall i | 0 <= i < |text| && !Dropped(text[i]) ensures i in all {
      if i == |before| {
        assert all[|kept|] == i;
      } else {
        var k :| 0 <= k < |kept| && kept[k] == i;
        assert all[k] == i;
      }
    }
  }

  lemma {:induction false} ImagesOfPrefix(before: string, ch: char, at: seq<nat>, lower: char -> string)
    requires Within(at, |before|)
    ensures Images(before + [ch], at, lower) == Images(before, at, lower)
    decreases |at|
  {
    if at != [] {
      ImagesOfPrefix(before, ch, at[..|at| - 1], lower);
    }
  }

  lemma ImagesSnoc(before: string, ch: char, at: seq<nat>, lower: char -> string)
    requires Within(at, |before|)
    ensures Within(at + [|before|], |before + [ch]|)
    ensures Images(before + [ch], at + [|before|], lower) == Images(before, at, lower) + lower(ch)
  {
    ImagesOfPrefix(before, ch, at, lower);
    assert (at + [|before|])[..|at|] == at;
  }

  lemma NormalizeSnoc(before: string, ch: char, lower: char -> string)
    ensures Normalize(before + [ch], lower)
            == if Dropped(ch) then Normalize(before, lower) else Normalize(before, lower) + lower(ch)
  {
    NormalizeConcat(before, [ch], lower);
    hide Dropped;
    assert [ch][1..] == [];
    assert Normalize([], lower) == [];
    assert Normalize(before, lower) + [] == Normalize(before, lower);
  }

  lemma KeptSnoc(before: string, ch: char, at: seq<nat>, lower: char -> string) returns (kept: seq<nat>)
    requires IsKept(before, at, lower, Normalize(before, lower))
    ensures IsKept(before + [ch], kept, lower, Normalize(before + [ch], lower))
  {
    assert Within(at, |before|);
    KeepsSnoc(before, ch, at);
    hide Dropped, Normalize, Keeps, Within;
    NormalizeSnoc(before, ch, lower);
    if Dropped(ch) {
      kept := at;
      ImagesOfPrefix(before, ch, at, lower);
    } else {
      kept := at + [|before|];
      ImagesSnoc(before, ch, at, lower);
    }
  }

  /** `out` is the images of exactly the characters of `text` that are kept. */
  ghost predicate IsKept(text: string, kept: seq<nat>, lower: char -> string, out: string) {
    Keeps(text, kept) && out == Images(text, kept, lower)
  }

  lemma {:induction false} NormalizeKeeps(text: string, lower: char -> string) returns (kept: seq<nat>)
    ensures IsKept(text, kept, lower, Normalize(text, lower))
    decreases |text|
  {
    hide Dropped, Normalize, IsKept;
    if text == [] {
      kept := NothingKept(lower);
    } else {
      var before, ch := text[..|text| - 1], text[|text| - 1];
      assert text == before + [ch];
      var at := NormalizeKeeps(before, lower);
      kept := KeptSnoc(before, ch, at, lower);
    }
  }

  lemma NothingKept(lower: char -> string) returns (kept: seq<nat>)
    ensures IsKept([], kept, lower, Normalize([], lower))
  {
    hide Dropped;
    kept := [];
  }

  /** Normalizing keeps exactly the characters that are neither white space nor
      punctuation, each once, in order, and lower-cases each by itself. */
  lemma NormalizeExact(text: string, lower: char -> string) returns (kept: seq<nat>)
    ensures Keeps(text, kept)
    ensures Normalize(text, lower) == Images(text, kept, lower)
  {
    hide Dropped, Normalize, Images;
    kept := NormalizeKeeps(text, lower);
  }

  // ---------------------------------------------------------------- definition

  /** `at` picks the characters of `w`, in order, out of `t`. */
  predicate Embeds(w: string, t: string, at: seq<nat>) {
    && |at| == |w|
    && (forall i :: 0 <= i < |w| ==> at[i] < |t| && t[at[i]] == w[i])
    && (forall i, j :: 0 <= i < j < |at| ==> at[i] < at[j])
  }

  ghost predicate Subsequence(w: string, t: string) {
    exists at :: Embeds(w, t, at)
  }

  ghost predicate Common(w: string, a: string, b: string) {
    Subsequence(w, a) && Subsequence(w, b)
  }

  /** `n` is the length of a common subsequence, and none is longer. */
  ghost predicate LongestCommon(n: nat, a: string, b: string) {
    && (exists w :: Common(w, a, b) && |w| == n)
    && (forall w :: Common(w, a, b) ==> |w| <= n)
  }

  // ---------------------------------------------------------------- recurrence

  function Max(x: nat, y: nat): nat { if x > y then x else y }

  function Lcs(a: string, b: string): nat
    decreases |a| + |b|
  {
    if a == [] || b == [] then 0
    else if a[|a| - 1] == b[|b| - 1] then Lcs(a[..|a| - 1], b[..|b| - 1]) + 1
    else Max(Lcs(a[..|a| - 1], b), Lcs(a, b[..|b| - 1]))
  }

  lemma EmbedLonger(w: string, t: string, at: seq<nat>)
    requires t != [] && Embeds(w, t[..|t| - 1], at)
    ensures Embeds(w, t, at)
    ensures Embeds(w + [t[|t| - 1]], t, at + [|t| - 1])
  {}

  lemma {:induction false} LcsAttained(a: string, b: string) returns (w: string, f: seq<nat>, g: seq<nat>)
    ensures Embeds(w, a, f) && Embeds(w, b, g) && |w| == Lcs(a, b)
    decreases |a| + |b|
  {
    if a == [] || b == [] {
      w, f, g := [], [], [];
    } else if a[|a| - 1] == b[|b| - 1] {
      w, f, g := LcsAttained(a[..|a| - 1], b[..|b| - 1]);
      EmbedLonger(w, a, f);
      EmbedLonger(w, b, g);
      w, f, g := w + [a[|a| - 1]], f + [|a| - 1], g + [|b| - 1];
    } else if Lcs(a[..|a| - 1], b) > Lcs(a, b[..|b| - 1]) {
      w, f, g := LcsAttained(a[..|a| - 1], b);
      EmbedLonger(w, a, f);
    } else {
      w, f, g := LcsAttained(a, b[..|b| - 1]);
      EmbedLonger(w, b, g);
    }
  }

  /** Whatever is picked strictly before the last character is picked out of the
      text without it. */
  lemma EmbedShorter(w: string, t: string, at: seq<nat>)
    requires Embeds(w, t, at) && w != []
    ensures t != []
    ensures Embeds(w[..|w| - 1], t[..|t| - 1], at[..|w| - 1])
    ensures at[|w| - 1] < |t| - 1 ==> Embeds(w, t[..|t| - 1], at)
    ensures at[|w| - 1] == |t| - 1 ==> w[|w| - 1] == t[|t| - 1]
  {
    assert at[|w| - 1] < |t|;
  }

  lemma {:induction false} LcsBounds(a: string, b: string, w: string, f: seq<nat>, g: seq<nat>)
    requires Embeds(w, a, f) && Embeds(w, b, g)
    ensures |w| <= Lcs(a, b)
    decreases |a| + |b|
  {
    if w != [] {
      var n := |w| - 1;
      EmbedShorter(w, a, f);
      EmbedShorter(w, b, g);
      assert f[n] < |a| && g[n] < |b|;
      if a[|a| - 1] == b[|b| - 1] {
        LcsBounds(a[..|a| - 1], b[..|b| - 1], w[..n], f[..n], g[..n]);
      } else if f[n] < |a| - 1 {
        LcsBounds(a[..|a| - 1], b, w, f, g);
      } else {
        LcsBounds(a, b[..|b| - 1], w, f, g);
      }
    }
  }

  /** The recurrence computes a longest common subsequence's length. */
  lemma LcsIsLongest(a: string, b: string)
    ensures LongestCommon(Lcs(a, b), a, b)
  {
    var w, f, g := LcsAttained(a, b);
    assert Common(w, a, b);
    forall v | Common(v, a, b) ensures |v| <= Lcs(a, b) {
      var at :| Embeds(v, a, at);
      var bt :| Embeds(v, b, bt);
      LcsBounds(a, b, v, at, bt);
    }
  }

  lemma LongestCommonUnique(m: nat, n: nat, a: string, b: string)
    requires LongestCommon(m, a, b) && LongestCommon(n, a, b)
    ensures m == n
  {
    var v :| Common(v, a, b) && |v| == m;
    var w :| Common(w, a, b) && |w| == n;
  }

  // ---------------------------------------------------------------- the programme

  /** Row `i`, column `j` of the table. */
  function Cell(a: string, b: string, i: nat, j: nat): nat
    requires i <= |a| && j <= |b|
  {
    Lcs(a[..i], b[..j])
  }

  lemma CellStep(a: string, b: string, i: nat, j: nat)
    requires i < |a| && j < |b|
    ensures Cell(a, b, i + 1, j + 1) ==
            if a[i] == b[j] then Cell(a, b, i, j) + 1 else Max(Cell(a, b, i, j + 1), Cell(a, b, i + 1, j))
  {
    assert a[..i + 1][..i] == a[..i] && b[..j + 1][..j] == b[..j];
  }

  /** The rolling-row dynamic programme over the normalized texts. */
  method LcsLength(a: string, b: string) returns (length: nat)
    requires a != [] && b != []
    ensures LongestCommon(length, a, b)
    ensures length == Lcs(a, b)
  {
    var prev := new nat[|b| + 1](_ => 0);
    for i := 0 to |a|
      invariant prev.Length == |b| + 1
      invariant forall j :: 0 <= j <= |b| ==> prev[j] == Cell(a, b, i, j)
    {
      var cur := new nat[|b| + 1](_ => 0);
      for j := 1 to |b| + 1
        invariant forall k :: 0 <= k <= |b| ==> prev[k] == Cell(a, b, i, k)
        invariant forall k :: 0 <= k < j ==> cur[k] == Cell(a, b, i + 1, k)
        invariant cur != prev && cur.Length == |b| + 1
      {
        CellStep(a, b, i, j - 1);
        cur[j] := if a[i] == b[j - 1] then prev[j - 1] + 1 else Max(prev[j], cur[j - 1]);
      }
      prev := cur;
    }
    assert a[..|a|] == a && b[..|b|] == b;
    length := prev[|b|];
    LcsIsLongest(a, b);
  }

  /** The score of two normalized texts. */
  function Score(a: string, b: string): real {
    if a == [] && b == [] then 1.0
    else if a == [] || b == [] then 0.0
    else Lcs(a, b) as real / Max(|a|, |b|) as real
  }

  method Similarity(a: string, b: string, lower: char -> string) returns (score: real)
    ensures score == Score(Normalize(a, lower), Normalize(b, lower))
  {
    var na, nb := Normalize(a, lower), Normalize(b, lower);
    if na == [] && nb == [] {
      score := 1.0;
    } else if na == [] || nb == [] {
      score := 0.0;
    } else {
      var length := LcsLength(na, nb);
      score := length as real / Max(|na|, |nb|) as real;
    }
  }

  // ---------------------------------------------------------------- the score

  lemma {:induction false} IndexGrows(at: seq<nat>, i: nat)
    requires forall k, m :: 0 <= k < m < |at| ==> at[k] < at[m]
    requires i < |at|
    ensures at[i] >= i
  {
    if i > 0 { IndexGrows(at, i - 1); }
  }

  lemma SubsequenceIsShort(w: string, t: string)
    requires Subsequence(w, t)
    ensures |w| <= |t|
  {
    var at :| Embeds(w, t, at);
    if w != [] { IndexGrows(at, |w| - 1); }
  }

  /** A picked character can be no earlier than its position from the left and no
      later than its position from the right. */
  lemma {:induction false} IndexBounded(at: seq<nat>, n: nat, i: nat)
    requires forall k, m :: 0 <= k < m < |at| ==> at[k] < at[m]
    requires forall k :: 0 <= k < |at| ==> at[k] < n
    requires i < |at|
    ensures at[i] + (|at| - 1 - i) < n
    decreases |at| - i
  {
    if i + 1 < |at| { IndexBounded(at, n, i + 1); }
  }

  lemma FullLengthSubsequence(w: string, t: string)
    requires Subsequence(w, t) && |w| == |t|
    ensures w == t
  {
    var at :| Embeds(w, t, at);
    forall i | 0 <= i < |w| ensures w[i] == t[i] {
      IndexGrows(at, i);
      IndexBounded(at, |t|, i);
    }
  }

  lemma WholeIsSubsequence(t: string)
    ensures Subsequence(t, t)
  {
    assert Embeds(t, t, seq(|t|, i => i));
  }

  lemma LcsSymmetric(a: string, b: string)
    ensures Lcs(a, b) == Lcs(b, a)
  {
    LcsIsLongest(a, b);
    LcsIsLongest(b, a);
    var w :| Common(w, a, b) && |w| == Lcs(a, b);
    assert Common(w, b, a);
    var v :| Common(v, b, a) && |v| == Lcs(b, a);
    assert Common(v, a, b);
  }

  /** The score lies between 0 and 1, does not depend on the order of the texts,
      and is 1 exactly when the normalized texts are equal. */
  lemma ScoreIsSimilarity(a: string, b: string)
    ensures 0.0 <= Score(a, b) <= 1.0
    ensures Score(a, b) == Score(b, a)
    ensures Score(a, b) == 1.0 <==> a == b
  {
    LcsSymmetric(a, b);
    if a != [] && b != [] {
      LcsIsLongest(a, b);
      var w :| Common(w, a, b) && |w| == Lcs(a, b);
      SubsequenceIsShort(w, a);
      SubsequenceIsShort(w, b);
      var m := Max(|a|, |b|);
      Ratio(Lcs(a, b), m);
      if Lcs(a, b) == m {
        FullLengthSubsequence(w, a);
        FullLengthSubsequence(w, b);
      }
      if a == b {
        WholeIsSubsequence(a);
        assert Common(a, a, b);
      }
    }
  }

  /** The score of texts that are not both empty is the number that, times the
      length of the longer text, gives the length of a longest common subsequence;
      two empty texts score 1. */
  lemma ScoreExact(a: string, b: string, score: real)
    ensures Score(a, b) == score <==>
            if a == [] && b == [] then score == 1.0
            else exists n, longer ::
                   LongestCommon(n, a, b) && IsLonger(longer, a, b) && score * longer as real == n as real
  {
    hide Lcs, LongestCommon, Score;
    if a == [] && b == [] {
      ScoreOfNothing();
    } else {
      ScoreIsRatio(a, b);
      LcsIsLongest(a, b);
      if Score(a, b) == score {
        assert LongestCommon(Lcs(a, b), a, b) && IsLonger(Max(|a|, |b|), a, b);
      }
      if n, m :| LongestCommon(n, a, b) && IsLonger(m, a, b) && score * m as real == n as real {
        ScoreIsTheRatio(a, b, n, m, score);
      }
    }
  }

  lemma ScoreOfNothing()
    ensures Score([], []) == 1.0
  {}

  lemma ScoreIsTheRatio(a: string, b: string, n: nat, m: nat, score: real)
    requires (a != [] || b != []) && LongestCommon(n, a, b) && IsLonger(m, a, b) && score * m as real == n as real
    ensures Score(a, b) == score
  {
    hide Lcs, LongestCommon, Score;
    ScoreIsRatio(a, b);
    LcsIsLongest(a, b);
    LongestCommonUnique(n, Lcs(a, b), a, b);
    Cancel(Score(a, b), score, m as real);
  }

  lemma ScoreIsRatio(a: string, b: string)
    requires a != [] || b != []
    ensures Max(|a|, |b|) > 0 && Score(a, b) * Max(|a|, |b|) as real == Lcs(a, b) as real
  {
    hide Lcs, Score;
    if a == [] || b == [] { ScoreOfOneEmpty(a, b); } else { ScoreOfBoth(a, b); }
  }

  lemma ScoreOfOneEmpty(a: string, b: string)
    requires (a == [] || b == []) && (a != [] || b != [])
    ensures Lcs(a, b) == 0 && Score(a, b) * Max(|a|, |b|) as real == 0.0
  {
    assert Score(a, b) == 0.0;
    hide Score;
    Sign(Score(a, b), Max(|a|, |b|) as real);
  }

  lemma ScoreOfBoth(a: string, b: string)
    requires a != [] && b != []
    ensures Score(a, b) * Max(|a|, |b|) as real == Lcs(a, b) as real
  {
    hide Lcs;
    DividesBack(Lcs(a, b) as real, Max(|a|, |b|) as real);
  }

  lemma DividesBack(x: real, y: real)
    requires y != 0.0
    ensures x / y * y == x
  {}

  lemma Cancel(p: real, q: real, y: real)
    requires y > 0.0 && p * y == q * y
    ensures p == q
  {
    Sign(p - q, y);
    assert (p - q) * y == p * y - q * y;
  }

  predicate IsLonger(n: nat, a: string, b: string) {
    (n == |a| || n == |b|) && n >= |a| && n >= |b|
  }

  lemma Ratio(n: nat, m: nat)
    requires n <= m && 0 < m
    ensures 0.0 <= n as real / m as real <= 1.0
    ensures n as real / m as real == 1.0 <==> n == m
  {
    Quotient(n as real, m as real);
  }

  lemma Quotient(x: real, y: real)
    requires 0.0 <= x <= y && 0.0 < y
    ensures 0.0 <= x / y <= 1.0
    ensures x / y == 1.0 <==> x == y
  {
    var q := x / y;
    assert q * y == x;
    Sign(q, y);
    Sign(q - 1.0, y);
    Distributes(q, y);
    assert (q - 1.0) * y == x - y;
  }

  lemma Sign(q: real, y: real)
    requires y > 0.0
    ensures q > 0.0 ==> q * y > 0.0
    ensures q < 0.0 ==> q * y < 0.0
    ensures q == 0.0 ==> q * y == 0.0
  {}

  lemma Distributes(q: real, y: real)
    ensures (q - 1.0) * y == q * y - y
  {}
}
