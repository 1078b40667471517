/** The tokenizers of scripts/apply_migration_0013.py and 0014. */
module Deparse {
  // `constraint_literals`, `constraint_comparisons`, `constraint_numbers` and `constraint_integers` read
  // a definition the server deparsed, each by a regular-expression search. The functions below follow
  // the matcher, backtracking included, and the lemmas say what it finds in a definition printed from
  // its pieces.

  import opened Options

  // ------------------------------------------------------------------ quoted literals: '((?:[^']|'')*)'

  /** How much of `s`, which follows an opening quote, the rest of the match takes, closing quote
      included. A doubled quote is taken as content first, and given back if nothing closes. */
  function Close(s: string): (n: Option<nat>)
    ensures n.Some? ==> 1 <= n.value <= |s|
  {
    if s == [] then None
    else if s[0] != '\'' then
      match Close(s[1..]) case Some(k) => Some(k + 1) case None => None
    else if |s| >= 2 && s[1] == '\'' then
      match Close(s[2..]) case Some(k) => Some(k + 2) case None => Some(1)
    else Some(1)
  }

  function QuotedAt(s: string): Option<nat> {
    if s != [] && s[0] == '\'' then Close(s[1..]) else None
  }

  /** _QUOTED_LITERAL.findall */
  function Quoted(s: string): seq<string> {
    if s == [] then []
    else
      match QuotedAt(s)
      case Some(k) => [s[1..k]] + Quoted(s[k + 1..])
      case None => Quoted(s[1..])
  }

  /** _QUOTED_LITERAL.sub("''", s) */
  function Unquoted(s: string): string {
    if s == [] then []
    else
      match QuotedAt(s)
      case Some(k) => "''" + Unquoted(s[k + 1..])
      case None => [s[0]] + Unquoted(s[1..])
  }

  /** value.replace("''", "'") */
  function Undouble(s: string): string {
    if |s| >= 2 && s[0] == '\'' && s[1] == '\'' then "'" + Undouble(s[2..])
    else if s == [] then []
    else [s[0]] + Undouble(s[1..])
  }

  function ConstraintLiterals(definition: string): set<string> {
    set value | value in Quoted(definition) :: Undouble(value)
  }

  // ------------------------------------------------------------------ comparisons: <=|>=|<>|!=|=|<|>

  datatype Comparison = Le | Ge | Ne | Differs | Eq | Lt | Gt {
    function Text(): string {
      match this
      case Le => "<=" case Ge => ">=" case Ne => "<>" case Differs => "!=" case Eq => "=" case Lt => "<" case Gt => ">"
    }
  }

  function ComparisonAt(s: string): Option<Comparison> {
    if |s| >= 2 && s[0] == '<' && s[1] == '=' then Some(Le)
    else if |s| >= 2 && s[0] == '>' && s[1] == '=' then Some(Ge)
    else if |s| >= 2 && s[0] == '<' && s[1] == '>' then Some(Ne)
    else if |s| >= 2 && s[0] == '!' && s[1] == '=' then Some(Differs)
    else if |s| >= 1 && s[0] == '=' then Some(Eq)
    else if |s| >= 1 && s[0] == '<' then Some(Lt)
    else if |s| >= 1 && s[0] == '>' then Some(Gt)
    else None
  }

  function Comparisons(s: string): seq<Comparison> {
    if s == [] then []
    else
      match ComparisonAt(s)
      case Some(c) => [c] + Comparisons(s[|c.Text()|..])
      case None => Comparisons(s[1..])
  }

  function ConstraintComparisons(definition: string): seq<Comparison> {
    Comparisons(Unquoted(definition))
  }

  // ------------------------------------------------------------------ numbers

  predicate Digit(c: char) {
    '0' <= c <= '9'
  }

  predicate WordChar(c: char) {
    Digit(c) || 'a' <= c <= 'z' || 'A' <= c <= 'Z' || c == '_'
  }

  /** The characters that may not touch a number: [\w.] for 0014's numbers, \w for 0013's integers,
      where \b beside a digit says the same. */
  predicate Touching(c: char, fractions: bool) {
    WordChar(c) || (fractions && c == '.')
  }

  function Digits(s: string): (n: nat)
    ensures n <= |s| && forall i :: 0 <= i < n ==> Digit(s[i])
    ensures n < |s| ==> !Digit(s[n])
  {
    if s == [] || !Digit(s[0]) then 0 else 1 + Digits(s[1..])
  }

  predicate FreeAfter(s: string, end: nat, fractions: bool)
    requires end <= |s|
  {
    end == |s| || !Touching(s[end], fractions)
  }

  /** \.[0-9]+ after n digits, the longest first. */
  function WithFraction(s: string, n: nat, m: nat): (end: Option<nat>)
    requires n + 1 + m <= |s|
    ensures end.Some? ==> n < end.value <= |s|
  {
    if m == 0 then None
    else if FreeAfter(s, n + 1 + m, true) then Some(n + 1 + m)
    else WithFraction(s, n, m - 1)
  }

  /** [0-9]+ of n digits, then fewer. */
  function WithDigits(s: string, n: nat, fractions: bool): (end: Option<nat>)
    requires n <= |s|
    ensures end.Some? ==> 1 <= end.value <= |s|
  {
    if n == 0 then None
    else
      var fraction := if fractions && n < |s| && s[n] == '.' then WithFraction(s, n, Digits(s[n + 1..])) else None;
      if fraction.Some? then fraction
      else if FreeAfter(s, n, fractions) then Some(n)
      else WithDigits(s, n - 1, fractions)
  }

  /** findall; `free`: no touching character stands before. */
  function NumbersFrom(s: string, free: bool, fractions: bool): seq<string> {
    if s == [] then []
    else
      var end := if free then WithDigits(s, Digits(s), fractions) else None;
      match end
      case Some(n) => [s[..n]] + NumbersFrom(s[n..], !Touching(s[n - 1], fractions), fractions)
      case None => NumbersFrom(s[1..], !Touching(s[0], fractions), fractions)
  }

  function ConstraintNumbers(definition: string): set<string> {
    set n | n in NumbersFrom(Unquoted(definition), true, true)
  }

  function Decimal(s: string): int {
    if s == [] then 0 else 10 * Decimal(s[..|s| - 1]) + (s[|s| - 1] as int - '0' as int)
  }

  function ConstraintIntegers(definition: string): set<int> {
    set n | n in NumbersFrom(Unquoted(definition), true, false) :: Decimal(n)
  }

  // ------------------------------------------------------------------ a definition and its pieces

  datatype Piece = Code(text: string) | Operator(comparison: Comparison) | Literal(value: string)

  function Double(v: string): string {
    if v == [] then []
    else if v[0] == '\'' then "''" + Double(v[1..])
    else [v[0]] + Double(v[1..])
  }

  function PrintPiece(p: Piece): string {
    match p
    case Code(text) => text
    case Operator(c) => c.Text()
    case Literal(v) => "'" + Double(v) + "'"
  }

  function Print(ps: seq<Piece>): string {
    if ps == [] then [] else PrintPiece(ps[0]) + Print(ps[1..])
  }

  predicate OperatorFree(s: string) {
    forall i :: 0 <= i < |s| ==> s[i] != '<' && s[i] != '>' && s[i] != '='
  }

  /** The server's text: code is never empty and holds no quote, and two literals never touch. */
  predicate WellQuoted(ps: seq<Piece>) {
    && (forall p :: p in ps && p.Code? ==> p.text != [] && '\'' !in p.text)
    && forall i :: 0 <= i < |ps| - 1 ==> !(ps[i].Literal? && ps[i + 1].Literal?)
  }

  /** And every comparison in it is a piece of its own: none stands in the code, two never touch, and an
      exclamation mark never ends the code before an "=". */
  predicate WellPrinted(ps: seq<Piece>) {
    && WellQuoted(ps)
    && (forall p :: p in ps && p.Code? ==> OperatorFree(p.text))
    && forall i :: 0 <= i < |ps| - 1 ==>
         && !(ps[i].Operator? && ps[i + 1].Operator?)
         && !(ps[i].Code? && ps[i].text[|ps[i].text| - 1] == '!' && ps[i + 1] == Operator(Eq))
  }

  function LiteralsOf(ps: seq<Piece>): seq<string> {
    if ps == [] then [] else (if ps[0].Literal? then [ps[0].value] else []) + LiteralsOf(ps[1..])
  }

  function OperatorsOf(ps: seq<Piece>): seq<Comparison> {
    if ps == [] then [] else (if ps[0].Operator? then [ps[0].comparison] else []) + OperatorsOf(ps[1..])
  }

  /** The text with every literal emptied. */
  function Skeleton(ps: seq<Piece>): string {
    if ps == [] then []
    else (if ps[0].Literal? then "''" else PrintPiece(ps[0])) + Skeleton(ps[1..])
  }

  // ------------------------------------------------------------------ literals

  lemma {:induction false} DoubleUndoubles(v: string)
    ensures Undouble(Double(v)) == v
  {
    if v != [] {
      DoubleUndoubles(v[1..]);
      if v[0] == '\'' {
        assert Double(v)[2..] == Double(v[1..]);
      } else {
        assert Double(v)[1..] == Double(v[1..]);
        assert Double(v)[0] == v[0];
      }
    }
  }

  lemma {:induction false} CloseAfterDouble(v: string, rest: string)
    requires rest == [] || rest[0] != '\''
    ensures Close(Double(v) + "'" + rest) == Some(|Double(v)| + 1)
  {
    var s := Double(v) + "'" + rest;
    if v == [] {
      assert s == "'" + rest;
      assert |s| >= 2 ==> s[1] == rest[0];
    } else {
      CloseAfterDouble(v[1..], rest);
      var tail := Double(v[1..]) + "'" + rest;
      if v[0] == '\'' {
        assert s == "''" + tail;
        assert s[2..] == tail;
      } else {
        assert s == [v[0]] + tail;
        assert s[1..] == tail;
      }
    }
  }

  lemma NoQuoteFirst(c: char, rest: string)
    requires c != '\''
    ensures Quoted([c] + rest) == Quoted(rest)
    ensures Unquoted([c] + rest) == [c] + Unquoted(rest)
  {
    assert ([c] + rest)[1..] == rest;
  }

  lemma {:induction false} CodeHoldsNoLiteral(text: string, rest: string)
    requires '\'' !in text
    ensures Quoted(text + rest) == Quoted(rest)
    ensures Unquoted(text + rest) == text + Unquoted(rest)
  {
    hide Quoted, Unquoted;
    if text == [] {
      assert text + rest == rest;
      assert text + Unquoted(rest) == Unquoted(rest);
    } else {
      assert text[0] in text;
      assert text + rest == [text[0]] + (text[1..] + rest);
      NoQuoteFirst(text[0], text[1..] + rest);
      CodeHoldsNoLiteral(text[1..], rest);
      assert [text[0]] + (text[1..] + Unquoted(rest)) == text + Unquoted(rest);
    }
  }

  lemma LiteralFirst(v: string, rest: string)
    requires rest == [] || rest[0] != '\''
    ensures Quoted("'" + Double(v) + "'" + rest) == [Double(v)] + Quoted(rest)
    ensures Unquoted("'" + Double(v) + "'" + rest) == "''" + Unquoted(rest)
  {
    LiteralMatches(v, rest);
  }

  lemma LiteralMatches(v: string, rest: string)
    requires rest == [] || rest[0] != '\''
    ensures var s, k := "'" + Double(v) + "'" + rest, |Double(v)| + 1;
      QuotedAt(s) == Some(k) && 1 <= k < |s| && s[1..k] == Double(v) && s[k + 1..] == rest
  {
    CloseAfterDouble(v, rest);
    hide Close, Double;
    var s := "'" + Double(v) + "'" + rest;
    assert s[1..] == Double(v) + "'" + rest;
  }

  function Doubled(vs: seq<string>): seq<string> {
    if vs == [] then [] else [Double(vs[0])] + Doubled(vs[1..])
  }

  lemma OtherStartsNoQuote(p: Piece)
    requires !p.Literal? && (p.Code? ==> p.text != [] && '\'' !in p.text)
    ensures PrintPiece(p) != [] && PrintPiece(p)[0] != '\''
  {
    if p.Code? {
      assert p.text[0] in p.text;
    }
  }

  lemma NextStartsNoQuote(ps: seq<Piece>)
    requires WellQuoted(ps) && ps != [] && ps[0].Literal?
    ensures Print(ps[1..]) == [] || Print(ps[1..])[0] != '\''
  {
    if |ps| > 1 {
      assert !ps[1].Literal? && ps[1] in ps;
      OtherStartsNoQuote(ps[1]);
      hide PrintPiece;
      assert ps[1..][0] == ps[1];
    }
  }

  lemma {:induction false} ReadBack(ps: seq<Piece>)
    requires WellQuoted(ps)
    ensures Quoted(Print(ps)) == Doubled(LiteralsOf(ps))
    ensures Unquoted(Print(ps)) == Skeleton(ps)
  {
    hide Quoted, Unquoted, Double;
    if ps == [] {
      EmptyText();
    } else {
      ReadBack(ps[1..]);
      match ps[0]
      case Code(text) =>
        CodeHoldsNoLiteral(text, Print(ps[1..]));
        assert LiteralsOf(ps) == LiteralsOf(ps[1..]);
      case Operator(c) =>
        CodeHoldsNoLiteral(c.Text(), Print(ps[1..]));
        assert LiteralsOf(ps) == LiteralsOf(ps[1..]);
      case Literal(v) =>
        NextStartsNoQuote(ps);
        LiteralFirst(v, Print(ps[1..]));
        assert LiteralsOf(ps)[1..] == LiteralsOf(ps[1..]);
    }
  }

  lemma EmptyText()
    ensures Quoted([]) == [] && Unquoted([]) == []
  {
  }

  lemma {:induction false} DoubledMembers(vs: seq<string>, x: string)
    ensures x in Doubled(vs) <==> exists v :: v in vs && Double(v) == x
  {
    hide Double;
    if vs != [] {
      DoubledMembers(vs[1..], x);
      assert vs == [vs[0]] + vs[1..];
      if Double(vs[0]) == x {
        assert vs[0] in vs;
      }
      if x in Doubled(vs[1..]) {
        var v :| v in vs[1..] && Double(v) == x;
        assert v in vs;
      }
    }
  }

  /** MAIN: the extractor undoes the printer. Whatever the literals contain, it returns exactly their
      values, quotes in them included. */
  lemma LiteralsAreReadBack(ps: seq<Piece>)
    requires WellQuoted(ps)
    ensures ConstraintLiterals(Print(ps)) == set v | v in LiteralsOf(ps)
  {
    ReadBack(ps);
    var quoted := Quoted(Print(ps));
    forall v ensures v in ConstraintLiterals(Print(ps)) <==> v in LiteralsOf(ps) {
      DoubledMembers(LiteralsOf(ps), Double(v));
      DoubleUndoubles(v);
      if v in ConstraintLiterals(Print(ps)) {
        var x :| x in quoted && Undouble(x) == v;
        DoubledMembers(LiteralsOf(ps), x);
        var u :| u in LiteralsOf(ps) && Double(u) == x;
        DoubleUndoubles(u);
      }
    }
  }

  // ------------------------------------------------------------------ comparisons

  lemma {:induction false} CodeHoldsNoComparison(text: string, rest: string)
    requires OperatorFree(text)
    requires text != [] && text[|text| - 1] == '!' && rest != [] ==> rest[0] != '='
    ensures Comparisons(text + rest) == Comparisons(rest)
  {
    if text == [] {
      assert text + rest == rest;
    } else {
      var s := text + rest;
      assert s[0] == text[0];
      assert s[1..] == text[1..] + rest;
      if |text| >= 2 {
        assert s[1] == text[1];
      } else if rest != [] {
        assert s[1] == rest[0];
      }
      CodeHoldsNoComparison(text[1..], rest);
    }
  }

  lemma OperatorFirst(c: Comparison, rest: string)
    requires rest == [] || (rest[0] != '=' && rest[0] != '>' && rest[0] != '<')
    ensures Comparisons(c.Text() + rest) == [c] + Comparisons(rest)
  {
    var s, n := c.Text() + rest, |c.Text()|;
    assert s[n..] == rest;
    assert s[0] == c.Text()[0];
    if n == 2 {
      assert s[1] == c.Text()[1];
    } else if rest != [] {
      assert s[1] == rest[0];
    }
  }

  lemma {:induction false} ComparisonsOfSkeleton(ps: seq<Piece>)
    requires WellPrinted(ps)
    ensures Comparisons(Skeleton(ps)) == OperatorsOf(ps)
  {
    if ps != [] {
      var rest := Skeleton(ps[1..]);
      ComparisonsOfSkeleton(ps[1..]);
      match ps[0]
      case Code(text) =>
        assert !(text[|text| - 1] == '!' && |ps| > 1 && ps[1] == Operator(Eq));
        CodeHoldsNoComparison(text, rest);
      case Operator(c) => OperatorFirst(c, rest);
      case Literal(_) => CodeHoldsNoComparison("''", rest);
    }
  }

  /** MAIN: exactly the comparisons, in order, none split and none found inside a literal. */
  lemma ComparisonsAreReadBack(ps: seq<Piece>)
    requires WellPrinted(ps)
    ensures ConstraintComparisons(Print(ps)) == OperatorsOf(ps)
  {
    ReadBack(ps);
    ComparisonsOfSkeleton(ps);
  }

  // ------------------------------------------------------------------ numbers

  function Run(s: string, fractions: bool): (n: nat)
    ensures n <= |s| && (n < |s| ==> !Touching(s[n], fractions))
    ensures forall i :: 0 <= i < n ==> Touching(s[i], fractions)
  {
    if s == [] || !Touching(s[0], fractions) then 0 else 1 + Run(s[1..], fractions)
  }

  /** The maximal runs of touching characters. */
  function Words(s: string, fractions: bool): seq<string> {
    if s == [] then []
    else if Run(s, fractions) == 0 then Words(s[1..], fractions)
    else [s[..Run(s, fractions)]] + Words(s[Run(s, fractions)..], fractions)
  }

  /** Digits only, or (with fractions) digits, a point and digits. */
  predicate IsNumber(w: string, fractions: bool) {
    var d := Digits(w);
    && d > 0
    && (d == |w| || (fractions && w[d] == '.' && d + 1 < |w| && Digits(w[d + 1..]) == |w| - d - 1))
  }

  function NumberWords(ws: seq<string>, fractions: bool): seq<string> {
    if ws == [] then []
    else (if IsNumber(ws[0], fractions) then [ws[0]] else []) + NumberWords(ws[1..], fractions)
  }

  lemma {:induction false} NoShorterFraction(s: string, n: nat, m: nat)
    requires n < |s| && m < Digits(s[n + 1..])
    ensures WithFraction(s, n, m) == None
  {
    if m > 0 {
      assert s[n + 1..][m] == s[n + 1 + m];
      NoShorterFraction(s, n, m - 1);
    }
  }

  lemma {:induction false} NoShorterDigits(s: string, n: nat, fractions: bool)
    requires n < Digits(s)
    ensures WithDigits(s, n, fractions) == None
  {
    if n > 0 {
      NoShorterDigits(s, n - 1, fractions);
    }
  }

  lemma {:induction false} DigitsOfPrefix(s: string, n: nat)
    requires Digits(s) <= n <= |s|
    ensures Digits(s[..n]) == Digits(s)
  {
    if s != [] && Digit(s[0]) {
      DigitsOfPrefix(s[1..], n - 1);
      assert s[..n][1..] == s[1..][..n - 1];
    }
  }

  /** At the start of a run, the matcher takes the whole run or nothing. */
  lemma MatchIsWholeRun(s: string, fractions: bool)
    requires Run(s, fractions) > 0
    ensures WithDigits(s, Digits(s), fractions) ==
      if IsNumber(s[..Run(s, fractions)], fractions) then Some(Run(s, fractions)) else None
  {
    var n, d := Run(s, fractions), Digits(s);
    DigitsOfPrefix(s, n);
    if d > 0 {
      NoShorterDigits(s, d - 1, fractions);
      if fractions && d < |s| && s[d] == '.' {
        FractionIsWholeRun(s);
      }
    }
  }

  lemma FractionIsWholeRun(s: string)
    requires 0 < Digits(s) < |s| && s[Digits(s)] == '.'
    ensures WithFraction(s, Digits(s), Digits(s[Digits(s) + 1..])) ==
      if IsNumber(s[..Run(s, true)], true) then Some(Run(s, true)) else None
    ensures !FreeAfter(s, Digits(s), true)
  {
    hide Digits, Run, WithFraction, Words, IsNumber;
    var n, d, m := Run(s, true), Digits(s), Digits(s[Digits(s) + 1..]);
    FractionSpan(s);
    if m > 0 {
      NoShorterFraction(s, d, m - 1);
    }
    OneFraction(s, d, m);
  }

  lemma OneFraction(s: string, d: nat, m: nat)
    requires d + 1 + m <= |s|
    requires m > 0 ==> WithFraction(s, d, m - 1) == None
    ensures WithFraction(s, d, m) == if m > 0 && FreeAfter(s, d + 1 + m, true) then Some(d + 1 + m) else None
  {
  }

  lemma FractionSpan(s: string)
    requires 0 < Digits(s) < |s| && s[Digits(s)] == '.'
    ensures var n, d, m := Run(s, true), Digits(s), Digits(s[Digits(s) + 1..]);
      && d + 1 + m <= n
      && (IsNumber(s[..n], true) <==> m > 0 && d + 1 + m == n)
      && (FreeAfter(s, d + 1 + m, true) <==> d + 1 + m == n)
  {
    hide Run, Digits, IsNumber;
    var d := Digits(s);
    TailWithinRun(s);
    var n := Run(s, true);
    DigitsOfPrefix(s, n);
    var tail := s[d + 1..];
    DigitsOfPrefix(tail, n - d - 1);
    assert s[..n][d + 1..] == tail[..n - d - 1];
    NumberWithPoint(s[..n], d, Digits(tail));
  }

  lemma NumberWithPoint(w: string, d: nat, m: nat)
    requires 0 < d == Digits(w) < |w| && w[d] == '.' && m == Digits(w[d + 1..])
    ensures IsNumber(w, true) <==> m > 0 && d + 1 + m == |w|
  {
    hide Digits;
  }

  lemma TailWithinRun(s: string)
    requires 0 < Digits(s) < |s| && s[Digits(s)] == '.'
    ensures Digits(s) + 1 + Digits(s[Digits(s) + 1..]) <= Run(s, true)
  {
    hide Digits, Run;
  }

  /** Inside a run nothing more is found. */
  lemma {:induction false} RestOfRun(s: string, fractions: bool)
    ensures NumbersFrom(s, false, fractions) == NumbersFrom(s[Run(s, fractions)..], false, fractions)
  {
    if Run(s, fractions) > 0 {
      RestOfRun(s[1..], fractions);
      assert s[1..][Run(s[1..], fractions)..] == s[Run(s, fractions)..];
    } else {
      assert s[0..] == s;
    }
  }

  /** After a run the text is over, or goes on with a character no number touches. */
  lemma AfterRun(s: string, fractions: bool)
    requires s == [] || !Touching(s[0], fractions)
    ensures NumbersFrom(s, false, fractions) == NumbersFrom(s, true, fractions)
  {
  }

  lemma {:induction false} NumbersAreWords(s: string, fractions: bool)
    ensures NumbersFrom(s, true, fractions) == NumberWords(Words(s, fractions), fractions)
    decreases |s|
  {
    if s != [] {
      var n := Run(s, fractions);
      if n == 0 {
        NumbersAreWords(s[1..], fractions);
      } else {
        var w, rest := s[..n], s[n..];
        MatchIsWholeRun(s, fractions);
        NumbersAreWords(rest, fractions);
        AfterRun(rest, fractions);
        assert Words(s, fractions)[1..] == Words(rest, fractions);
        if !IsNumber(w, fractions) {
          RestOfRun(s[1..], fractions);
          assert s[1..][n - 1..] == rest;
        }
      }
    }
  }

  /** MAIN: the numbers are the maximal runs that read as one number, of the text with every literal
      emptied: nothing inside a literal, an identifier or a longer token is ever taken. */
  lemma NumbersAreReadBack(ps: seq<Piece>)
    requires WellQuoted(ps)
    ensures ConstraintNumbers(Print(ps)) == set w | w in Words(Skeleton(ps), true) && IsNumber(w, true)
    ensures ConstraintIntegers(Print(ps)) == set w | w in Words(Skeleton(ps), false) && IsNumber(w, false) :: Decimal(w)
  {
    ReadBack(ps);
    NumbersAreWords(Skeleton(ps), true);
    NumbersAreWords(Skeleton(ps), false);
    forall w ensures w in NumbersFrom(Skeleton(ps), true, true) <==> w in Words(Skeleton(ps), true) && IsNumber(w, true) {
      NumberWordsMembers(Words(Skeleton(ps), true), true, w);
    }
    forall w ensures w in NumbersFrom(Skeleton(ps), true, false) <==> w in Words(Skeleton(ps), false) && IsNumber(w, false) {
      NumberWordsMembers(Words(Skeleton(ps), false), false, w);
    }
  }

  lemma {:induction false} NumberWordsMembers(ws: seq<string>, fractions: bool, w: string)
    ensures w in NumberWords(ws, fractions) <==> w in ws && IsNumber(w, fractions)
  {
    if ws != [] {
      NumberWordsMembers(ws[1..], fractions, w);
    }
  }

  /** Two definitions that differ only inside their literals have the same numbers and comparisons. */
  lemma LiteralsNeverLeak(ps: seq<Piece>, qs: seq<Piece>)
    requires WellQuoted(ps) && WellQuoted(qs) && Skeleton(ps) == Skeleton(qs)
    ensures ConstraintNumbers(Print(ps)) == ConstraintNumbers(Print(qs))
    ensures ConstraintIntegers(Print(ps)) == ConstraintIntegers(Print(qs))
    ensures ConstraintComparisons(Print(ps)) == ConstraintComparisons(Print(qs))
  {
    ReadBack(ps);
    ReadBack(qs);
  }
}
