/** Which numbers the tokenizers of Deparse.dfy take, said by where they stand in the text. */
module DeparseMeaning {
  import opened Deparse

  /** Letters, digits and underscores, and with fractions the point. */
  predicate Touches(c: char, fractions: bool) {
    'a' <= c <= 'z' || 'A' <= c <= 'Z' || '0' <= c <= '9' || c == '_' || (fractions && c == '.')
  }

  predicate AllDigits(s: string) {
    s != [] && forall i :: 0 <= i < |s| ==> '0' <= s[i] <= '9'
  }

  predicate PointAt(w: string, k: int) {
    0 <= k < |w| && w[k] == '.' && AllDigits(w[..k]) && AllDigits(w[k + 1..])
  }

  ghost predicate NumberText(w: string, fractions: bool) {
    AllDigits(w) || (fractions && exists k :: PointAt(w, k))
  }

  /** The text `w` is at place `i`, and nothing that would belong to it is on either side. */
  predicate StandsAlone(s: string, w: string, i: nat, fractions: bool) {
    && i + |w| <= |s| && s[i..i + |w|] == w
    && (i > 0 ==> !Touches(s[i - 1], fractions))
    && (i + |w| < |s| ==> !Touches(s[i + |w|], fractions))
  }

  predicate Word(w: string, fractions: bool) {
    w != [] && forall k :: 0 <= k < |w| ==> Touches(w[k], fractions)
  }

  ghost predicate WordIn(s: string, w: string, fractions: bool) {
    exists i :: StandsAlone(s, w, i, fractions)
  }

  lemma TouchingMeans(c: char, fractions: bool)
    ensures Touching(c, fractions) <==> Touches(c, fractions)
  {
  }

  // ------------------------------------------------------------------ the words

  /** A word that stands further on stands in the rest. */
  lemma StandsInRest(s: string, w: string, n: nat, i: nat, fractions: bool)
    requires n <= i && n <= |s| && StandsAlone(s, w, i, fractions)
    ensures StandsAlone(s[n..], w, i - n, fractions)
  {
    hide Touches;
    assert i + |w| <= |s| ==> s[n..][i - n..i - n + |w|] == s[i..i + |w|];
    assert i > n ==> s[n..][i - n - 1] == s[i - 1];
  }

  lemma StandsInWhole(s: string, w: string, n: nat, i: nat, fractions: bool)
    requires n <= |s| && StandsAlone(s[n..], w, i, fractions) && (i == 0 && n > 0 ==> !Touches(s[n - 1], fractions))
    ensures StandsAlone(s, w, n + i, fractions)
  {
    hide Touches;
    assert s[n..][i..i + |w|] == s[n + i..n + i + |w|];
    assert i > 0 ==> s[n..][i - 1] == s[n + i - 1];
  }

  lemma FirstTouches(s: string, w: string, i: nat, fractions: bool)
    requires StandsAlone(s, w, i, fractions) && Word(w, fractions)
    ensures i < |s| && Touches(s[i], fractions)
  {
    hide Touches;
    assert w[0] == s[i..i + |w|][0] == s[i];
  }

  /** At the start of the text stands the first run, and no other word. */
  lemma FirstRun(s: string, w: string, fractions: bool)
    requires Word(w, fractions)
    ensures StandsAlone(s, w, 0, fractions) <==> Run(s, fractions) > 0 && w == s[..Run(s, fractions)]
  {
    var n := Run(s, fractions);
    forall c ensures Touching(c, fractions) <==> Touches(c, fractions) {
      TouchingMeans(c, fractions);
    }
    hide Touches, Touching;
    if StandsAlone(s, w, 0, fractions) {
      assert forall k :: 0 <= k < |w| ==> s[k] == w[k];
    }
  }

  /** And the next one stands after it. */
  lemma AfterFirstRun(s: string, w: string, i: nat, fractions: bool)
    requires Word(w, fractions) && StandsAlone(s, w, i, fractions) && i > 0
    ensures i > Run(s, fractions)
  {
    var n := Run(s, fractions);
    FirstTouches(s, w, i, fractions);
    forall c ensures Touching(c, fractions) <==> Touches(c, fractions) {
      TouchingMeans(c, fractions);
    }
    hide Touches, Touching;
    assert forall k :: 0 <= k < n ==> Touches(s[k], fractions);
  }

  lemma {:induction false} WordsMean(s: string, w: string, fractions: bool)
    requires Word(w, fractions)
    ensures w in Words(s, fractions) <==> WordIn(s, w, fractions)
    decreases |s|
  {
    hide Touches, Word, StandsAlone;
    if s == [] {
      NoWordIn(w, fractions);
    } else {
      FirstRun(s, w, fractions);
      var n := if Run(s, fractions) == 0 then 1 else Run(s, fractions);
      WordsMean(s[n..], w, fractions);
      if WordIn(s, w, fractions) {
        var i :| StandsAlone(s, w, i, fractions);
        if i > 0 {
          AfterFirstRun(s, w, i, fractions);
          StandsInRest(s, w, n, i, fractions);
        }
      }
      if WordIn(s[n..], w, fractions) {
        var i :| StandsAlone(s[n..], w, i, fractions);
        FirstTouches(s[n..], w, i, fractions);
        NotBeforeRest(s, n, i, fractions);
        StandsInWhole(s, w, n, i, fractions);
      }
    }
  }

  lemma NoWordIn(w: string, fractions: bool)
    requires Word(w, fractions)
    ensures !WordIn([], w, fractions)
  {
  }

  lemma NotBeforeRest(s: string, n: nat, i: nat, fractions: bool)
    requires s != [] && n == if Run(s, fractions) == 0 then 1 else Run(s, fractions)
    requires n + i < |s| && Touches(s[n..][i], fractions)
    ensures i == 0 ==> !Touches(s[n - 1], fractions)
  {
    TouchingMeans(s[n - 1], fractions);
    TouchingMeans(s[n..][i], fractions);
    assert s[n..][i] == s[n + i];
    hide Touches, Touching;
  }

  // ------------------------------------------------------------------ the numbers

  lemma NumberMeans(w: string, fractions: bool)
    ensures IsNumber(w, fractions) <==> NumberText(w, fractions)
  {
    var d := Digits(w);
    hide Digits;
    if IsNumber(w, fractions) && d < |w| {
      assert PointAt(w, d);
    }
    if k :| PointAt(w, k) {
      assert Digit(w[..k][k - 1]);
      assert forall i :: 0 <= i < k ==> w[i] == w[..k][i];
      assert d == k;
      var tail := w[k + 1..];
      assert forall i :: 0 <= i < |tail| ==> Digit(tail[i]);
    }
  }

  lemma NumberIsWord(w: string, fractions: bool)
    requires NumberText(w, fractions)
    ensures Word(w, fractions)
  {
    if !AllDigits(w) {
      var k :| PointAt(w, k);
      forall i | 0 <= i < |w| ensures Touches(w[i], fractions) {
        if i < k {
          assert w[i] == w[..k][i];
        } else if i > k {
          assert w[i] == w[k + 1..][i - k - 1];
        }
      }
    }
  }

  /** MAIN: of a definition with its literals emptied, the numbers are just the texts that are digits, or
      digits, a point and digits, and stand alone; and 0013's integers are the values of those of digits. */
  lemma NumbersStandAlone(ps: seq<Piece>, w: string, n: int)
    requires WellQuoted(ps)
    ensures w in ConstraintNumbers(Print(ps)) <==> NumberText(w, true) && WordIn(Skeleton(ps), w, true)
    ensures n in ConstraintIntegers(Print(ps)) <==> exists u :: AllDigits(u) && WordIn(Skeleton(ps), u, false) && Decimal(u) == n
  {
    NumbersAreReadBack(ps);
    NumberMeans(w, true);
    if NumberText(w, true) {
      NumberIsWord(w, true);
      WordsMean(Skeleton(ps), w, true);
    }
    forall u: string ensures u in Words(Skeleton(ps), false) && IsNumber(u, false) <==> AllDigits(u) && WordIn(Skeleton(ps), u, false) {
      NumberMeans(u, false);
      if NumberText(u, false) {
        NumberIsWord(u, false);
        WordsMean(Skeleton(ps), u, false);
      }
    }
    hide Words, IsNumber, WordIn, Skeleton, Decimal, NumberText;
  }

  // ------------------------------------------------------------------ the value of a numeral

  function Numeral(n: nat): string {
    (if n < 10 then [] else Numeral(n / 10)) + ["0123456789"[n % 10]]
  }

  /** A numeral is read as the number it is of, and zeros before it do not matter. */
  lemma {:induction false} NumeralsAreRead(n: nat)
    ensures Decimal(Numeral(n)) == n
  {
    var before := if n < 10 then [] else Numeral(n / 10);
    if n >= 10 {
      NumeralsAreRead(n / 10);
    }
    var s := Numeral(n);
    assert s[..|s| - 1] == before;
    DigitValue(n % 10);
  }

  lemma DigitValue(k: nat)
    requires k < 10
    ensures "0123456789"[k] as int - '0' as int == k
  {
  }

  lemma {:induction false} ZerosDoNotMatter(s: string)
    ensures Decimal("0" + s) == Decimal(s)
  {
    var t := "0" + s;
    if s == [] {
      assert t[..0] == [];
    } else {
      assert t[..|t| - 1] == "0" + s[..|s| - 1] && t[|t| - 1] == s[|s| - 1];
      ZerosDoNotMatter(s[..|s| - 1]);
    }
  }
}
