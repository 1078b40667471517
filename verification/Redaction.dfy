/** What scripts/apply_migration_0018.py prints and writes of a payload: `_published`, `_role_names`,
    `_substituted`.

    A text is read as its words (the longest runs of letters, digits and underscores) and the
    characters between them, which is all the source's patterns look at. */
module Redaction {
  import opened Deparse

  datatype Token = Word(word: string) | Other(c: char)

  type Text = seq<Token>

  predicate WellFormed(t: Text) {
    && (forall i :: 0 <= i < |t| ==>
          match t[i]
          case Word(w) => w != [] && forall k :: 0 <= k < |w| ==> WordChar(w[k])
          case Other(c) => !WordChar(c))
    && forall i :: 0 <= i < |t| - 1 ==> !(t[i].Word? && t[i + 1].Word?)
  }

  function Tokens(s: string): Text {
    if s == [] then []
    else if Run(s, false) == 0 then [Other(s[0])] + Tokens(s[1..])
    else [Word(s[..Run(s, false)])] + Tokens(s[Run(s, false)..])
  }

  function Chars(t: Text): string {
    if t == [] then [] else (match t[0] case Word(w) => w case Other(c) => [c]) + Chars(t[1..])
  }

  /** Nothing is lost in the reading, and no word is split. */
  lemma TokensAreTheText(s: string)
    ensures Chars(Tokens(s)) == s && WellFormed(Tokens(s))
  {
    CharsOfTokens(s);
    TokensWellFormed(s);
  }

  lemma CharsOfFirst(first: Token, rest: Text)
    ensures Chars([first] + rest) == (match first case Word(w) => w case Other(c) => [c]) + Chars(rest)
  {
    assert ([first] + rest)[1..] == rest;
  }

  lemma {:induction false} CharsOfTokens(s: string)
    ensures Chars(Tokens(s)) == s
    decreases |s|
  {
    hide Run, Chars;
    if s == [] {
      NoChars();
    } else {
      var n := Run(s, false);
      var rest := if n == 0 then s[1..] else s[n..];
      CharsOfTokens(rest);
      CharsOfFirst(if n == 0 then Other(s[0]) else Word(s[..n]), Tokens(rest));
    }
  }

  lemma NoChars()
    ensures Chars(Tokens([])) == []
  {
  }

  lemma {:induction false} TokensWellFormed(s: string)
    ensures WellFormed(Tokens(s))
    decreases |s|
  {
    if s != [] {
      var n := Run(s, false);
      var rest := if n == 0 then s[1..] else s[n..];
      TokensWellFormed(rest);
      var first := if n == 0 then Other(s[0]) else Word(s[..n]);
      assert Tokens(s) == [first] + Tokens(rest);
      hide Tokens, Run;
      OneMoreToken(first, Tokens(rest));
    } else {
      assert Tokens(s) == [];
    }
  }

  lemma OneMoreToken(first: Token, rest: Text)
    requires WellFormed(rest) && WellFormed([first]) && !(first.Word? && rest != [] && rest[0].Word?)
    ensures WellFormed([first] + rest)
  {
    var t := [first] + rest;
    assert forall i :: 0 < i < |t| ==> t[i] == rest[i - 1];
    assert [first][0] == first;
  }

  // ------------------------------------------------------------------ payloads

  datatype Payload = Scalar | Str(text: Text) | List(items: seq<Payload>) | Mapping(entries: seq<Entry>)
  datatype Entry = Entry(key: Text, value: Payload)

  /** Every key and string, in the order of a walk. */
  function Texts(v: Payload): seq<Text> {
    match v
    case Scalar => []
    case Str(t) => [t]
    case List(items) => TextsOfAll(items)
    case Mapping(entries) => TextsOfEntries(entries)
  }

  function TextsOfAll(items: seq<Payload>): seq<Text> {
    if items == [] then [] else Texts(items[0]) + TextsOfAll(items[1..])
  }

  function TextsOfEntries(entries: seq<Entry>): seq<Text> {
    if entries == [] then [] else [entries[0].key] + Texts(entries[0].value) + TextsOfEntries(entries[1..])
  }

  /** The payload with every key and string put through `f`. */
  function Mapped(v: Payload, f: Text -> Text): Payload {
    match v
    case Scalar => Scalar
    case Str(t) => Str(f(t))
    case List(items) => List(MappedAll(items, f))
    case Mapping(entries) => Mapping(MappedEntries(entries, f))
  }

  function MappedAll(items: seq<Payload>, f: Text -> Text): seq<Payload> {
    if items == [] then [] else [Mapped(items[0], f)] + MappedAll(items[1..], f)
  }

  function MappedEntries(entries: seq<Entry>, f: Text -> Text): seq<Entry> {
    if entries == [] then []
    else [Entry(f(entries[0].key), Mapped(entries[0].value, f))] + MappedEntries(entries[1..], f)
  }

  function Each(ts: seq<Text>, f: Text -> Text): seq<Text> {
    seq(|ts|, i requires 0 <= i < |ts| => f(ts[i]))
  }

  lemma EachOfBoth(a: seq<Text>, b: seq<Text>, f: Text -> Text)
    ensures Each(a + b, f) == Each(a, f) + Each(b, f)
  {
  }

  /** Text by text, where it stood. */
  lemma {:induction false} MappedTexts(v: Payload, f: Text -> Text)
    ensures Texts(Mapped(v, f)) == Each(Texts(v), f)
  {
    match v
    case Scalar =>
    case Str(t) =>
    case List(items) => MappedTextsOfAll(items, f);
    case Mapping(entries) => MappedTextsOfEntries(entries, f);
  }

  lemma {:induction false} MappedTextsOfAll(items: seq<Payload>, f: Text -> Text)
    ensures TextsOfAll(MappedAll(items, f)) == Each(TextsOfAll(items), f)
  {
    if items != [] {
      MappedTexts(items[0], f);
      MappedTextsOfAll(items[1..], f);
      EachOfBoth(Texts(items[0]), TextsOfAll(items[1..]), f);
      assert MappedAll(items, f)[1..] == MappedAll(items[1..], f);
      hide Each;
    }
  }

  lemma {:induction false} MappedTextsOfEntries(entries: seq<Entry>, f: Text -> Text)
    ensures TextsOfEntries(MappedEntries(entries, f)) == Each(TextsOfEntries(entries), f)
  {
    if entries != [] {
      var e := entries[0];
      MappedTexts(e.value, f);
      MappedTextsOfEntries(entries[1..], f);
      EachOfBoth([e.key], Texts(e.value), f);
      EachOfBoth([e.key] + Texts(e.value), TextsOfEntries(entries[1..]), f);
      assert Each([e.key], f) == [f(e.key)];
      assert MappedEntries(entries, f)[1..] == MappedEntries(entries[1..], f);
      hide Each;
    }
  }

  // ------------------------------------------------------------------ the role names

  predicate RoleKey(key: Text) {
    key in {[Word("role")], [Word("member")], [Word("owner")]}
  }

  predicate EndsWith(s: string, end: string) {
    |end| <= |s| && s[|s| - |end|..] == end
  }

  /** key.endswith(("inventory_O", "inventory_F", "inventory_G")) */
  predicate OwnerInventory(key: Text) {
    && key != [] && key[|key| - 1].Word?
    && var last := key[|key| - 1].word;
       EndsWith(last, "inventory_O") || EndsWith(last, "inventory_F") || EndsWith(last, "inventory_G")
  }

  predicate Letters(w: string) {
    forall i :: 0 <= i < |w| ==> 'a' <= w[i] <= 'z' || 'A' <= w[i] <= 'Z'
  }

  /** [A-Za-z*]*(?:/(name))? */
  function Grantor(t: Text): set<Text> {
    if t == [] then {}
    else if t[0] == Other('*') || (t[0].Word? && Letters(t[0].word)) then Grantor(t[1..])
    else if t[0] == Other('/') && |t| > 1 && t[1].Word? then {[t[1]]}
    else {}
  }

  /** (name)=... at the start of the text. */
  function AclEntry(t: Text): set<Text> {
    if |t| >= 2 && t[0].Word? && t[1] == Other('=') then {[t[0]]} + Grantor(t[2..]) else {}
  }

  /** findall of _ACL_NAMES: at the start, and after every brace and comma. Neither stands inside an
      entry, so no entry hides another. */
  function AclNames(t: Text, start: bool): set<Text> {
    if t == [] then {}
    else
      (if start then AclEntry(t) else {})
      + (if t[0] == Other('{') || t[0] == Other(',') then AclEntry(t[1..]) else {})
      + AclNames(t[1..], false)
  }

  predicate AclMarkAt(t: Text, i: nat)
    requires i < |t|
  {
    t[i].Word? && EndsWith(t[i].word, "acl") && i + 1 < |t| && t[i + 1] == Other('=')
  }

  /** value.split("acl=", 1)[1], if there is one, and the word the mark ends. */
  function AfterAcl(t: Text): (Text, Text) {
    if t == [] then ([], [])
    else if AclMarkAt(t, 0) then ([t[0]], t[2..])
    else AfterAcl(t[1..])
  }

  function TextNames(t: Text, key: Text): set<Text> {
    (if RoleKey(key) then {t} else {})
    + (if key == [Word("acl")] then AclNames(t, true) else {})
    + (if key == [Word("detail")] then AclNames(AfterAcl(t).1, true) else {})
  }

  /** `_role_names` */
  function RoleNames(v: Payload, key: Text): set<Text> {
    match v
    case Scalar => {}
    case Str(t) => TextNames(t, key)
    case List(items) => NamesOfAll(items, key)
    case Mapping(entries) => NamesOfEntries(entries, key)
  }

  function NamesOfAll(items: seq<Payload>, key: Text): set<Text> {
    if items == [] then {} else RoleNames(items[0], key) + NamesOfAll(items[1..], key)
  }

  function NamesOfEntries(entries: seq<Entry>, key: Text): set<Text> {
    if entries == [] then {}
    else
      var e := entries[0];
      (if OwnerInventory(key) && e.key == [Word("detail")] && e.value.Str? then {e.value.text} else {})
      + RoleNames(e.value, e.key) + NamesOfEntries(entries[1..], key)
  }

  /** The source's walk, which adds to one set as it goes. */
  method CollectRoleNames(v: Payload, key: Text, names: set<Text>) returns (names': set<Text>)
    ensures names' == names + RoleNames(v, key)
    decreases v
  {
    hide TextNames, OwnerInventory;
    names' := names;
    match v
    case Scalar =>
    case Str(t) => names' := names + TextNames(t, key);
    case List(items) =>
      for i := 0 to |items|
        invariant names' + NamesOfAll(items[i..], key) == names + NamesOfAll(items, key)
      {
        names' := CollectRoleNames(items[i], key, names');
        assert items[i..][1..] == items[i + 1..];
      }
    case Mapping(entries) =>
      for i := 0 to |entries|
        invariant names' + NamesOfEntries(entries[i..], key) == names + NamesOfEntries(entries, key)
      {
        var e := entries[i];
        if OwnerInventory(key) && e.key == [Word("detail")] && e.value.Str? {
          names' := names' + {e.value.text};
        }
        names' := CollectRoleNames(e.value, e.key, names');
        assert entries[i..][0] == e && entries[i..][1..] == entries[i + 1..];
      }
  }

  // ------------------------------------------------------------------ what is withheld

  const REPORTED_ROLES: set<string> := {"PUBLIC", "anon", "authenticated", "authenticator", "service_role"}

  predicate Lower(c: char) {
    'a' <= c <= 'z' || '0' <= c <= '9' || c == '_'
  }

  /** (?:pg|ucpe)_[a-z0-9_]{1,58} */
  predicate ReportedPattern(n: string) {
    || (4 <= |n| <= 61 && n[..3] == "pg_" && forall i :: 3 <= i < |n| ==> Lower(n[i]))
    || (6 <= |n| <= 63 && n[..5] == "ucpe_" && forall i :: 5 <= i < |n| ==> Lower(n[i]))
  }

  predicate Reportable(n: string) {
    n in REPORTED_ROLES || ReportedPattern(n)
  }

  /** The words to withhold. */
  function Withheld(names: set<Text>): set<string> {
    set t: Text | t in names && |t| == 1 && t[0].Word? && !Reportable(t[0].word) :: t[0].word
  }

  /** "<role withheld>" */
  const WITHHELD: Text := [Other('<'), Word("role"), Other(' '), Word("withheld"), Other('>')]

  /** pattern.sub(WITHHELD, text): every whole word that is withheld. */
  function Substituted(t: Text, w: set<string>): Text {
    if t == [] then []
    else (if t[0].Word? && t[0].word in w then WITHHELD else [t[0]]) + Substituted(t[1..], w)
  }

  function By(w: set<string>): Text -> Text {
    (t: Text) => Substituted(t, w)
  }

  function Replaced(v: Payload, w: set<string>): Payload {
    Mapped(v, By(w))
  }

  /** `_published` */
  function Published(v: Payload): Payload {
    var w := Withheld(RoleNames(v, []));
    if w == {} then v else Replaced(v, w)
  }

  /** Every role name read is one word, as PostgreSQL's unquoted names are, or empty. */
  ghost predicate WordNames(v: Payload) {
    forall t: Text :: t in RoleNames(v, []) ==> t == [] || (|t| == 1 && t[0].Word?)
  }

  // ------------------------------------------------------------------ what a publication changes

  predicate Stands(x: string, t: Text) {
    Word(x) in t
  }

  /** The word stands in some key or string of the payload. */
  ghost predicate Occurs(v: Payload, x: string) {
    exists t :: t in Texts(v) && Stands(x, t)
  }

  predicate Hit(t: Text, w: set<string>) {
    exists y :: y in w && Stands(y, t)
  }

  predicate OfThePlaceholder(x: string) {
    x == "role" || x == "withheld"
  }

  lemma {:induction false} SubstitutedWords(t: Text, w: set<string>, x: string)
    ensures Stands(x, Substituted(t, w)) <==> (Stands(x, t) && x !in w) || (OfThePlaceholder(x) && Hit(t, w))
  {
    if t != [] {
      SubstitutedWords(t[1..], w, x);
      assert t == [t[0]] + t[1..];
      hide OfThePlaceholder, Hit;
    }
  }

  /** Every text of the replaced payload is a replaced text. */
  lemma ReplacedTexts(v: Payload, w: set<string>)
    ensures forall u :: u in Texts(Replaced(v, w)) <==> exists t :: t in Texts(v) && u == Substituted(t, w)
  {
    MappedTexts(v, By(w));
    hide Texts, Mapped, Substituted;
    var ts, us := Texts(v), Texts(Replaced(v, w));
    forall u | u in us ensures exists t :: t in ts && u == Substituted(t, w) {
      var i :| 0 <= i < |us| && us[i] == u;
      assert ts[i] in ts && u == Substituted(ts[i], w);
    }
    forall t | t in ts ensures Substituted(t, w) in us {
      var i :| 0 <= i < |ts| && ts[i] == t;
      assert us[i] == Substituted(t, w);
    }
  }

  lemma ReplacedOccurs(v: Payload, w: set<string>, x: string)
    ensures Occurs(Replaced(v, w), x) <==> (Occurs(v, x) && x !in w) || (OfThePlaceholder(x) && exists y :: y in w && Occurs(v, y))
  {
    if Occurs(Replaced(v, w), x) {
      var u :| u in Texts(Replaced(v, w)) && Stands(x, u);
      ReplacedTexts(v, w);
      var t :| t in Texts(v) && u == Substituted(t, w);
      SubstitutedWords(t, w, x);
      if Hit(t, w) {
        var y :| y in w && Stands(y, t);
        assert Occurs(v, y);
      }
    }
    if Occurs(v, x) && x !in w {
      var t :| t in Texts(v) && Stands(x, t);
      SubstitutedOccurs(v, w, x, t);
    }
    if y :| OfThePlaceholder(x) && y in w && Occurs(v, y) {
      var t :| t in Texts(v) && Stands(y, t);
      assert Hit(t, w);
      SubstitutedOccurs(v, w, x, t);
    }
  }

  lemma SubstitutedOccurs(v: Payload, w: set<string>, x: string, t: Text)
    requires t in Texts(v) && ((Stands(x, t) && x !in w) || (OfThePlaceholder(x) && Hit(t, w)))
    ensures Occurs(Replaced(v, w), x)
  {
    SubstitutedWords(t, w, x);
    ReplacedTexts(v, w);
    assert Stands(x, Substituted(t, w));
  }

  // ------------------------------------------------------------------ every collected name is there

  lemma {:induction false} GrantorStands(t: Text, n: Text)
    requires n in Grantor(t)
    ensures |n| == 1 && n[0].Word? && n[0] in t
  {
    if t[0] == Other('*') || (t[0].Word? && Letters(t[0].word)) {
      GrantorStands(t[1..], n);
    } else {
      assert t[1] in t;
    }
  }

  lemma {:induction false} AclNameStands(t: Text, start: bool, n: Text)
    requires n in AclNames(t, start)
    ensures |n| == 1 && n[0].Word? && n[0] in t
  {
    assert t == [t[0]] + t[1..];
    if n in AclNames(t[1..], false) {
      AclNameStands(t[1..], false, n);
    } else if start && n in AclEntry(t) {
      EntryStands(t, n);
    } else {
      EntryStands(t[1..], n);
    }
  }

  lemma EntryStands(t: Text, n: Text)
    requires n in AclEntry(t)
    ensures |n| == 1 && n[0].Word? && n[0] in t
  {
    if n != [t[0]] {
      GrantorStands(t[2..], n);
    }
  }

  lemma {:induction false} AfterAclIsPart(t: Text, c: Token)
    requires c in AfterAcl(t).1
    ensures c in t
  {
    if t != [] && !AclMarkAt(t, 0) {
      AfterAclIsPart(t[1..], c);
    }
  }

  lemma TextNameStands(t: Text, key: Text, x: string)
    requires [Word(x)] in TextNames(t, key)
    ensures Stands(x, t)
  {
    var n: Text := [Word(x)];
    if n in AclNames(t, true) {
      AclNameStands(t, true, n);
    } else if n in AclNames(AfterAcl(t).1, true) {
      AclNameStands(AfterAcl(t).1, true, n);
      AfterAclIsPart(t, n[0]);
    } else {
      assert t == n;
    }
  }

  lemma {:induction false} CollectedOccurs(v: Payload, key: Text, x: string)
    requires [Word(x)] in RoleNames(v, key)
    ensures Occurs(v, x)
  {
    hide TextNames, OwnerInventory;
    match v
    case Str(t) => TextNameStands(t, key, x);
    case List(items) =>
      CollectedOccursInAll(items, key, x);
      var t :| t in TextsOfAll(items) && Stands(x, t);
      assert t in Texts(v);
    case Mapping(entries) =>
      CollectedOccursInEntries(entries, key, x);
      var t :| t in TextsOfEntries(entries) && Stands(x, t);
      assert t in Texts(v);
  }

  lemma {:induction false} CollectedOccursInAll(items: seq<Payload>, key: Text, x: string)
    requires [Word(x)] in NamesOfAll(items, key)
    ensures exists t :: t in TextsOfAll(items) && Stands(x, t)
  {
    if [Word(x)] in RoleNames(items[0], key) {
      CollectedOccurs(items[0], key, x);
      var t :| t in Texts(items[0]) && Stands(x, t);
      assert t in TextsOfAll(items);
    } else {
      CollectedOccursInAll(items[1..], key, x);
      var t :| t in TextsOfAll(items[1..]) && Stands(x, t);
      assert t in TextsOfAll(items);
    }
  }

  lemma {:induction false} CollectedOccursInEntries(entries: seq<Entry>, key: Text, x: string)
    requires [Word(x)] in NamesOfEntries(entries, key)
    ensures exists t :: t in TextsOfEntries(entries) && Stands(x, t)
  {
    hide OwnerInventory;
    var e := entries[0];
    if [Word(x)] in RoleNames(e.value, e.key) {
      CollectedOccurs(e.value, e.key, x);
      var t :| t in Texts(e.value) && Stands(x, t);
      assert t in TextsOfEntries(entries);
    } else if [Word(x)] in NamesOfEntries(entries[1..], key) {
      CollectedOccursInEntries(entries[1..], key, x);
      var t :| t in TextsOfEntries(entries[1..]) && Stands(x, t);
      assert t in TextsOfEntries(entries);
    } else {
      assert e.value.Str? && e.value.text == [Word(x)];
      assert Texts(e.value) == [e.value.text];
      assert Stands(x, e.value.text) && e.value.text in TextsOfEntries(entries);
    }
  }

  // ------------------------------------------------------------------ the guarantees

  lemma WithheldWord(names: set<Text>, x: string)
    ensures x in Withheld(names) <==> [Word(x)] in names && !Reportable(x)
  {
    hide Reportable;
    var t: Text := [Word(x)];
    assert t[0].word == x;
    if x in Withheld(names) {
      var u: Text :| u in names && |u| == 1 && u[0].Word? && !Reportable(u[0].word) && u[0].word == x;
      assert u == t;
    }
  }

  /** MAIN: no withheld name is left as a whole word in any key or string, exactly when neither word of
      the placeholder is itself a name to withhold. */
  lemma RedactionIsComplete(v: Payload)
    requires WordNames(v)
    ensures var w := Withheld(RoleNames(v, []));
      (forall x :: x in w ==> !Occurs(Published(v), x)) <==> "role" !in w && "withheld" !in w
  {
    var w := Withheld(RoleNames(v, []));
    forall x | x in w ensures Occurs(v, x) && (Occurs(Published(v), x) <==> OfThePlaceholder(x)) {
      var t: Text :| t in RoleNames(v, []) && |t| == 1 && t[0].Word? && !Reportable(t[0].word) && t[0].word == x;
      assert t == [Word(x)];
      CollectedOccurs(v, [], x);
      ReplacedOccurs(v, w, x);
    }
  }

  lemma PlaceholderIsNotReportable()
    ensures !Reportable("role") && !Reportable("withheld")
  {
    assert "role"[0] == 'r' && "withheld"[0] == 'w';
  }

  /** The reportable names in a text, in order. */
  function Reported(t: Text): seq<string> {
    if t == [] then []
    else (if t[0].Word? && Reportable(t[0].word) then [t[0].word] else []) + Reported(t[1..])
  }

  lemma ReportedFirst(c: Token, rest: Text)
    ensures Reported([c] + rest) == (if c.Word? && Reportable(c.word) then [c.word] else []) + Reported(rest)
  {
    assert ([c] + rest)[1..] == rest;
  }

  lemma NothingReportedInPlaceholder(rest: Text)
    ensures Reported(WITHHELD + rest) == Reported(rest)
  {
    PlaceholderIsNotReportable();
    hide Reportable, Reported;
    var x1: Text := [Other('>')] + rest;
    var x2: Text := [Word("withheld")] + x1;
    var x3: Text := [Other(' ')] + x2;
    var x4: Text := [Word("role")] + x3;
    ReportedFirst(Other('>'), rest);
    ReportedFirst(Word("withheld"), x1);
    ReportedFirst(Other(' '), x2);
    ReportedFirst(Word("role"), x3);
    ReportedFirst(Other('<'), x4);
    assert WITHHELD + rest == [Other('<')] + x4;
  }

  lemma {:induction false} SubstitutedReports(t: Text, w: set<string>)
    requires forall x :: x in w ==> !Reportable(x)
    ensures Reported(Substituted(t, w)) == Reported(t)
  {
    hide Reportable;
    if t != [] {
      var rest := Substituted(t[1..], w);
      SubstitutedReports(t[1..], w);
      assert t == [t[0]] + t[1..];
      assert Substituted(t, w) == (if t[0].Word? && t[0].word in w then WITHHELD else [t[0]]) + rest;
      hide Reported, Substituted;
      ReportedFirst(t[0], t[1..]);
      ReportedFirst(t[0], rest);
      NothingReportedInPlaceholder(rest);
    }
  }

  /** MAIN: reportable names are unchanged. The keys and strings keep their places, and each holds the
      reportable names it held, in the same order. */
  lemma ReportableNamesStay(v: Payload)
    ensures var before, after := Texts(v), Texts(Published(v));
      && |after| == |before|
      && forall i :: 0 <= i < |before| ==> Reported(after[i]) == Reported(before[i])
  {
    var w := Withheld(RoleNames(v, []));
    if w != {} {
      MappedTexts(v, By(w));
      hide Reportable, Texts, Mapped, RoleNames;
      forall i | 0 <= i < |Texts(v)| ensures Reported(Texts(Published(v))[i]) == Reported(Texts(v)[i]) {
        SubstitutedReports(Texts(v)[i], w);
      }
    }
  }

  // ------------------------------------------------------------------ publishing twice

  /** What follows the first "acl=" whose word is not withheld: the one a second reading splits at. */
  function AfterStandingAcl(t: Text, w: set<string>): Text {
    if t == [] then []
    else if AclMarkAt(t, 0) && t[0].word !in w then t[2..]
    else AfterStandingAcl(t[1..], w)
  }

  predicate MarkWithheld(t: Text, w: set<string>) {
    var mark := AfterAcl(t).0;
    mark != [] && mark[0].Word? && mark[0].word in w
  }

  /** The names in the ACL text a second reading finds instead, where the word that ends a detail's first
      "acl=" is withheld. */
  function ShiftedNames(v: Payload, key: Text, w: set<string>): set<Text> {
    match v
    case Scalar => {}
    case Str(t) =>
      if key == [Word("detail")] && "detail" !in w && MarkWithheld(t, w)
      then AclNames(Substituted(AfterStandingAcl(t, w), w), true)
      else {}
    case List(items) => ShiftedOfAll(items, key, w)
    case Mapping(entries) => ShiftedOfEntries(entries, w)
  }

  function ShiftedOfAll(items: seq<Payload>, key: Text, w: set<string>): set<Text> {
    if items == [] then {} else ShiftedNames(items[0], key, w) + ShiftedOfAll(items[1..], key, w)
  }

  function ShiftedOfEntries(entries: seq<Entry>, w: set<string>): set<Text> {
    if entries == [] then {} else ShiftedNames(entries[0].value, entries[0].key, w) + ShiftedOfEntries(entries[1..], w)
  }

  /** A name that a second reading may find: one the first found and kept, or the placeholder. */
  predicate Known(n: Text, names: set<Text>, w: set<string>) {
    |n| == 1 && n[0].Word? ==> n in names && n[0].word !in w
  }

  lemma StartOfSubstituted(t: Text, w: set<string>)
    requires t != []
    ensures Substituted(t, w) != []
    ensures Substituted(t, w)[0] == if t[0].Word? && t[0].word in w then Other('<') else t[0]
    ensures !(t[0].Word? && t[0].word in w) ==> Substituted(t, w)[1..] == Substituted(t[1..], w)
  {
  }

  lemma {:induction false} GrantorAgain(t: Text, w: set<string>, n: Text)
    requires n in Grantor(Substituted(t, w))
    ensures Known(n, Grantor(t), w)
  {
    if t != [] {
      StartOfSubstituted(t, w);
      if t[0].Word? && t[0].word in w {
      } else if t[0] == Other('*') || (t[0].Word? && Letters(t[0].word)) {
        GrantorAgain(t[1..], w, n);
      } else if |t| > 1 {
        StartOfSubstituted(t[1..], w);
      }
    }
  }

  lemma EntryAgain(t: Text, w: set<string>, n: Text)
    requires n in AclEntry(Substituted(t, w))
    ensures Known(n, AclEntry(t), w)
  {
    if t != [] {
      StartOfSubstituted(t, w);
      if |t| > 1 {
        StartOfSubstituted(t[1..], w);
        if n in Grantor(Substituted(t[1..][1..], w)) {
          GrantorAgain(t[2..], w, n);
        }
      }
    }
  }

  /** A token that starts no entry and ends no mark is passed over. */
  lemma SkipOne(c: Token, x: Text, start: bool)
    requires c != Other('{') && c != Other(',') && (c.Word? ==> x != [] && x[0] != Other('='))
    ensures AclNames([c] + x, start) == AclNames(x, false) && AfterAcl([c] + x) == AfterAcl(x)
  {
    assert ([c] + x)[1..] == x;
  }

  lemma SkipPlaceholder(x: Text, start: bool)
    ensures AclNames(WITHHELD + x, start) == AclNames(x, false)
    ensures AfterAcl(WITHHELD + x) == AfterAcl(x)
  {
    hide AclNames, AfterAcl;
    var x1: Text := [Other('>')] + x;
    var x2: Text := [Word("withheld")] + x1;
    var x3: Text := [Other(' ')] + x2;
    var x4: Text := [Word("role")] + x3;
    SkipOne(Other('>'), x, false);
    SkipOne(Word("withheld"), x1, false);
    SkipOne(Other(' '), x2, false);
    SkipOne(Word("role"), x3, false);
    SkipOne(Other('<'), x4, start);
    assert WITHHELD + x == [Other('<')] + x4;
  }

  lemma {:induction false} AclNamesAgain(t: Text, start: bool, w: set<string>, n: Text)
    requires n in AclNames(Substituted(t, w), start)
    ensures Known(n, AclNames(t, start), w)
  {
    hide AclEntry;
    if t != [] {
      if t[0].Word? && t[0].word in w {
        SkipPlaceholder(Substituted(t[1..], w), start);
        AclNamesAgain(t[1..], false, w, n);
      } else {
        StartOfSubstituted(t, w);
        if start && n in AclEntry(Substituted(t, w)) {
          EntryAgain(t, w, n);
        } else if n in AclEntry(Substituted(t[1..], w)) && (t[0] == Other('{') || t[0] == Other(',')) {
          EntryAgain(t[1..], w, n);
        } else {
          AclNamesAgain(t[1..], false, w, n);
        }
      }
    }
  }

  /** The second reading splits at the first mark left standing. */
  lemma {:induction false} SecondSplit(t: Text, w: set<string>)
    ensures AfterAcl(Substituted(t, w)).1 == Substituted(AfterStandingAcl(t, w), w)
  {
    if t != [] {
      if t[0].Word? && t[0].word in w {
        SkipPlaceholder(Substituted(t[1..], w), false);
        SecondSplit(t[1..], w);
      } else {
        StartOfSubstituted(t, w);
        if |t| > 1 {
          StartOfSubstituted(t[1..], w);
        }
        if AclMarkAt(t, 0) {
          assert Substituted(t, w)[2..] == Substituted(t[1..], w)[1..];
          assert t[1..][1..] == t[2..];
        } else {
          SecondSplit(t[1..], w);
        }
      }
    }
  }

  lemma {:induction false} SameSplit(t: Text, w: set<string>)
    requires !MarkWithheld(t, w)
    ensures AfterStandingAcl(t, w) == AfterAcl(t).1
  {
    if t != [] && !AclMarkAt(t, 0) {
      SameSplit(t[1..], w);
    }
  }

  lemma OneWordAgain(t: Text, w: set<string>, x: string)
    requires Substituted(t, w) == [Word(x)]
    ensures t == [Word(x)] && x !in w
  {
    if t != [] {
      StartOfSubstituted(t, w);
      if |t| > 1 {
        StartOfSubstituted(t[1..], w);
      }
    }
  }

  lemma TextNamesAgain(t: Text, key: Text, w: set<string>, n: Text)
    requires n in TextNames(Substituted(t, w), Substituted(key, w))
    ensures Known(n, TextNames(t, key), w) || n in ShiftedNames(Str(t), key, w)
  {
    if Substituted(key, w) == [Word("acl")] && n in AclNames(Substituted(t, w), true) {
      OneWordAgain(key, w, "acl");
      AclNamesAgain(t, true, w, n);
    } else if Substituted(key, w) == [Word("detail")] && n in AclNames(AfterAcl(Substituted(t, w)).1, true) {
      OneWordAgain(key, w, "detail");
      SecondSplit(t, w);
      if !MarkWithheld(t, w) {
        SameSplit(t, w);
        AclNamesAgain(AfterAcl(t).1, true, w, n);
      }
    } else {
      RoleKeyAgain(key, w);
      if |n| == 1 && n[0].Word? {
        OneWordAgain(t, w, n[0].word);
      }
    }
  }

  lemma RoleKeyAgain(key: Text, w: set<string>)
    requires RoleKey(Substituted(key, w))
    ensures RoleKey(key)
  {
    var k := Substituted(key, w);
    assert k == [Word(k[0].word)];
    OneWordAgain(key, w, k[0].word);
  }

  lemma {:induction false} LastAgain(t: Text, w: set<string>)
    requires Substituted(t, w) != [] && Substituted(t, w)[|Substituted(t, w)| - 1].Word?
    ensures t != [] && t[|t| - 1] == Substituted(t, w)[|Substituted(t, w)| - 1]
  {
    StartOfSubstituted(t, w);
    if |t| > 1 {
      StartOfSubstituted(t[1..], w);
      var rest := Substituted(t[1..], w);
      assert Substituted(t, w) == (if t[0].Word? && t[0].word in w then WITHHELD else [t[0]]) + rest;
      assert Substituted(t, w)[|Substituted(t, w)| - 1] == rest[|rest| - 1];
      LastAgain(t[1..], w);
    } else {
      assert Substituted(t[1..], w) == [];
    }
  }

  lemma OwnerInventoryAgain(key: Text, w: set<string>)
    requires OwnerInventory(Substituted(key, w))
    ensures OwnerInventory(key)
  {
    LastAgain(key, w);
  }

  lemma {:induction false} RoleNamesAgain(v: Payload, key: Text, w: set<string>, n: Text)
    requires n in RoleNames(Replaced(v, w), Substituted(key, w))
    ensures Known(n, RoleNames(v, key), w) || n in ShiftedNames(v, key, w)
  {
    hide TextNames, Known;
    match v
    case Str(t) => TextNamesAgain(t, key, w, n);
    case List(items) => NamesOfAllAgain(items, key, w, n);
    case Mapping(entries) => NamesOfEntriesAgain(entries, key, w, n);
  }

  lemma {:induction false} NamesOfAllAgain(items: seq<Payload>, key: Text, w: set<string>, n: Text)
    requires n in NamesOfAll(MappedAll(items, By(w)), Substituted(key, w))
    ensures Known(n, NamesOfAll(items, key), w) || n in ShiftedOfAll(items, key, w)
  {
    if items != [] {
      assert MappedAll(items, By(w))[1..] == MappedAll(items[1..], By(w));
      if n in RoleNames(Replaced(items[0], w), Substituted(key, w)) {
        RoleNamesAgain(items[0], key, w, n);
      } else {
        NamesOfAllAgain(items[1..], key, w, n);
      }
    }
  }

  lemma {:induction false} NamesOfEntriesAgain(entries: seq<Entry>, key: Text, w: set<string>, n: Text)
    requires n in NamesOfEntries(MappedEntries(entries, By(w)), Substituted(key, w))
    ensures Known(n, NamesOfEntries(entries, key), w) || n in ShiftedOfEntries(entries, w)
  {
    hide OwnerInventory, Substituted;
    if entries != [] {
      var e := entries[0];
      var e' := Entry(Substituted(e.key, w), Replaced(e.value, w));
      assert MappedEntries(entries, By(w))[0] == e' && MappedEntries(entries, By(w))[1..] == MappedEntries(entries[1..], By(w));
      if n in RoleNames(e'.value, e'.key) {
        RoleNamesAgain(e.value, e.key, w, n);
      } else if n in NamesOfEntries(MappedEntries(entries[1..], By(w)), Substituted(key, w)) {
        NamesOfEntriesAgain(entries[1..], key, w, n);
      } else {
        OwnerInventoryAgain(key, w);
        OneWordAgain(e.key, w, "detail");
        if |n| == 1 && n[0].Word? {
          OneWordAgain(e.value.text, w, n[0].word);
        }
      }
    }
  }

  lemma ShiftedTextIsRead(t: Text, key: Text, w: set<string>, n: Text)
    requires n in ShiftedNames(Str(t), key, w)
    ensures n in TextNames(Substituted(t, w), Substituted(key, w))
  {
    SubstitutedOne("detail", w);
    SecondSplit(t, w);
  }

  lemma SubstitutedOne(x: string, w: set<string>)
    ensures Substituted([Word(x)], w) == if x in w then WITHHELD else [Word(x)]
  {
    assert [Word(x)][1..] == [];
  }

  lemma {:induction false} ShiftedIsRead(v: Payload, key: Text, w: set<string>, n: Text)
    requires n in ShiftedNames(v, key, w)
    ensures n in RoleNames(Replaced(v, w), Substituted(key, w))
  {
    hide TextNames, Substituted;
    match v
    case Str(t) => ShiftedTextIsRead(t, key, w, n);
    case List(items) => ShiftedIsReadInAll(items, key, w, n);
    case Mapping(entries) => ShiftedIsReadInEntries(entries, Substituted(key, w), w, n);
  }

  lemma {:induction false} ShiftedIsReadInAll(items: seq<Payload>, key: Text, w: set<string>, n: Text)
    requires n in ShiftedOfAll(items, key, w)
    ensures n in NamesOfAll(MappedAll(items, By(w)), Substituted(key, w))
  {
    hide Substituted;
    assert MappedAll(items, By(w))[1..] == MappedAll(items[1..], By(w));
    if n in ShiftedNames(items[0], key, w) {
      ShiftedIsRead(items[0], key, w, n);
    } else {
      ShiftedIsReadInAll(items[1..], key, w, n);
    }
  }

  lemma {:induction false} ShiftedIsReadInEntries(entries: seq<Entry>, key: Text, w: set<string>, n: Text)
    requires n in ShiftedOfEntries(entries, w)
    ensures n in NamesOfEntries(MappedEntries(entries, By(w)), key)
  {
    hide Substituted, OwnerInventory;
    var e := entries[0];
    var e' := Entry(Substituted(e.key, w), Replaced(e.value, w));
    assert MappedEntries(entries, By(w))[0] == e' && MappedEntries(entries, By(w))[1..] == MappedEntries(entries[1..], By(w));
    if n in ShiftedNames(e.value, e.key, w) {
      ShiftedIsRead(e.value, e.key, w, n);
    } else {
      ShiftedIsReadInEntries(entries[1..], key, w, n);
    }
  }

  /** What a second publication withholds: what shifted into its sight. (The placeholder, then read as a
      name, is replaced by itself.) */
  lemma SecondlyWithheld(v: Payload)
    ensures var w := Withheld(RoleNames(v, []));
      Withheld(RoleNames(Replaced(v, w), [])) == Withheld(ShiftedNames(v, [], w))
  {
    var w := Withheld(RoleNames(v, []));
    var again, shifted := RoleNames(Replaced(v, w), []), ShiftedNames(v, [], w);
    assert Substituted([], w) == [];
    hide Reportable, Substituted;
    forall x | x in Withheld(again) ensures x in Withheld(shifted) {
      var t: Text :| t in again && |t| == 1 && t[0].Word? && !Reportable(t[0].word) && t[0].word == x;
      RoleNamesAgain(v, [], w, t);
    }
    forall x | x in Withheld(shifted) ensures x in Withheld(again) {
      var t: Text :| t in shifted && |t| == 1 && t[0].Word? && !Reportable(t[0].word) && t[0].word == x;
      ShiftedIsRead(v, [], w, t);
    }
  }

  /** MAIN: publishing a second time changes nothing, exactly when no name to withhold shifts into sight. */
  lemma PublishingTwiceIsPublishingOnce(v: Payload)
    requires WordNames(v)
    ensures Published(Published(v)) == Published(v) <==> Withheld(ShiftedNames(v, [], Withheld(RoleNames(v, [])))) == {}
  {
    var w := Withheld(RoleNames(v, []));
    SecondlyWithheld(v);
    assert Withheld({}) == {};
    hide Withheld, RoleNames, ShiftedNames, Replaced;
    if w == {} {
      NothingShifts(v, [], w);
    } else {
      var p := Replaced(v, w);
      var again := Withheld(RoleNames(p, []));
      if x :| x in again {
        OneWithheldChanges(p, again, x);
      }
    }
  }

  lemma OneWithheldChanges(p: Payload, w: set<string>, x: string)
    requires w == Withheld(RoleNames(p, [])) && x in w
    ensures Replaced(p, w) != p
  {
    hide Reportable;
    var t: Text :| t in RoleNames(p, []) && |t| == 1 && t[0].Word? && t[0].word == x;
    assert t == [Word(x)];
    CollectedOccurs(p, [], x);
    var u :| u in Texts(p) && Stands(x, u);
    assert Hit(u, w);
    ReplacedDiffers(p, w, u);
  }

  lemma {:induction false} Lengthened(t: Text, w: set<string>)
    ensures |Substituted(t, w)| >= |t| && (Hit(t, w) ==> |Substituted(t, w)| > |t|)
  {
    if t != [] {
      Lengthened(t[1..], w);
      hide Hit;
    }
  }

  lemma ReplacedDiffers(v: Payload, w: set<string>, u: Text)
    requires u in Texts(v) && Hit(u, w)
    ensures Replaced(v, w) != v
  {
    MappedTexts(v, By(w));
    var i :| 0 <= i < |Texts(v)| && Texts(v)[i] == u;
    assert Each(Texts(v), By(w))[i] == Substituted(u, w);
    Lengthened(u, w);
    hide Hit, Substituted, Texts, Mapped;
  }

  /** Nothing shifts unless a withheld name ends in "acl". */
  lemma {:induction false} NothingShifts(v: Payload, key: Text, w: set<string>)
    requires forall x :: x in w ==> !EndsWith(x, "acl")
    ensures ShiftedNames(v, key, w) == {}
  {
    match v
    case Scalar =>
    case Str(t) => MarkEndsInAcl(t);
    case List(items) => NothingShiftsInAll(items, key, w);
    case Mapping(entries) => NothingShiftsInEntries(entries, w);
  }

  lemma {:induction false} NothingShiftsInAll(items: seq<Payload>, key: Text, w: set<string>)
    requires forall x :: x in w ==> !EndsWith(x, "acl")
    ensures ShiftedOfAll(items, key, w) == {}
  {
    if items != [] {
      NothingShifts(items[0], key, w);
      NothingShiftsInAll(items[1..], key, w);
    }
  }

  lemma {:induction false} NothingShiftsInEntries(entries: seq<Entry>, w: set<string>)
    requires forall x :: x in w ==> !EndsWith(x, "acl")
    ensures ShiftedOfEntries(entries, w) == {}
  {
    if entries != [] {
      NothingShifts(entries[0].value, entries[0].key, w);
      NothingShiftsInEntries(entries[1..], w);
    }
  }

  lemma {:induction false} MarkEndsInAcl(t: Text)
    ensures var mark := AfterAcl(t).0; mark == [] || (mark[0].Word? && EndsWith(mark[0].word, "acl"))
  {
    if t != [] && !AclMarkAt(t, 0) {
      MarkEndsInAcl(t[1..]);
    }
  }

  /** MAIN: so it changes nothing for names that do not end in "acl". */
  lemma NamesNotEndingInAcl(v: Payload)
    requires WordNames(v) && forall x :: x in Withheld(RoleNames(v, [])) ==> !EndsWith(x, "acl")
    ensures Published(Published(v)) == Published(v)
  {
    PublishingTwiceIsPublishingOnce(v);
    NothingShifts(v, [], Withheld(RoleNames(v, [])));
  }

  // ------------------------------------------------------------------ when a second publication differs

  lemma PassOver(c: Token, x: Text)
    requires c != Other('{') && c != Other(',')
    ensures AclNames([c] + x, false) == AclNames(x, false)
  {
    assert ([c] + x)[1..] == x;
  }

  lemma MarkFirst(word: string, x: Text)
    requires EndsWith(word, "acl")
    ensures AfterAcl([Word(word), Other('=')] + x) == ([Word(word)], x)
  {
    assert ([Word(word), Other('=')] + x)[2..] == x;
  }

  /** ACL text that is no entry: "x acl=bar=r" after "fooacl=". */
  lemma NoEntry(grants: Text)
    requires grants == [Word("bar"), Other('='), Word("r")]
    ensures AclNames([Word("x"), Other(' '), Word("acl"), Other('=')] + grants, true) == {}
    ensures [Word("bar")] in AclNames(grants, true)
  {
    hide AclNames;
    var x3: Text := [Other('='), Word("bar"), Other('='), Word("r")];
    var x2: Text := [Word("acl")] + x3;
    var x1: Text := [Other(' ')] + x2;
    assert [Word("x"), Other(' '), Word("acl"), Other('=')] + grants == [Word("x")] + x1;
    SkipOne(Word("x"), x1, true);
    PassOver(Other(' '), x2);
    PassOver(Word("acl"), x3);
    NothingListed(x3);
    EntryFirst(grants);
  }

  lemma NothingListed(t: Text)
    requires forall i :: 0 <= i < |t| ==> t[i] != Other('{') && t[i] != Other(',')
    ensures AclNames(t, false) == {}
  {
    if t != [] {
      NothingListed(t[1..]);
    }
  }

  lemma EntryFirst(t: Text)
    requires |t| >= 2 && t[0].Word? && t[1] == Other('=')
    ensures [t[0]] in AclNames(t, true)
  {
  }

  /** A payload with a role named `foo`acl and a detail that starts with it. */
  function ShiftedMark(detail: Text): Payload {
    Mapping([Entry([Word("role")], Str([Word("fooacl")])), Entry([Word("detail")], Str(detail))])
  }

  lemma NamesOfShiftedMark(role: Text, detail: Text)
    ensures RoleNames(Mapping([Entry([Word("role")], Str(role)), Entry([Word("detail")], Str(detail))]), [])
         == {role} + AclNames(AfterAcl(detail).1, true)
  {
    hide AclNames, AfterAcl;
    var first, second := Entry([Word("role")], Str(role)), Entry([Word("detail")], Str(detail));
    assert [first, second][1..] == [second] && [second][1..] == [];
    KeysTellApart(role);
    KeysTellApart(detail);
    hide TextNames;
    assert NamesOfEntries([second][1..], []) == {};
    assert RoleNames(second.value, second.key) == TextNames(detail, second.key);
    assert NamesOfEntries([second], []) == TextNames(detail, second.key);
    assert RoleNames(first.value, first.key) == TextNames(role, first.key);
    assert NamesOfEntries([first, second], []) == RoleNames(first.value, first.key) + NamesOfEntries([second], []);
    assert RoleNames(Mapping([first, second]), []) == NamesOfEntries([first, second], []);
  }

  lemma KeysTellApart(t: Text)
    ensures TextNames(t, [Word("role")]) == {t}
    ensures TextNames(t, [Word("detail")]) == AclNames(AfterAcl(t).1, true)
  {
    hide AclNames, AfterAcl;
    assert "role"[0] == 'r' && "member"[0] == 'm' && "owner"[0] == 'o' && "acl"[0] == 'a' && "detail"[0] == 'd';
    var role, member, owner, acl, detail := Word("role"), Word("member"), Word("owner"), Word("acl"), Word("detail");
    assert role.word[0] != acl.word[0] && role.word[0] != detail.word[0] && detail.word[0] != acl.word[0];
    assert [role][0] == role && [detail][0] == detail && [acl][0] == acl && [member][0] == member && [owner][0] == owner;
  }

  lemma NotReportable()
    ensures !Reportable("fooacl") && !Reportable("bar")
  {
    assert "fooacl"[0] == 'f' && "bar"[0] == 'b' && "bar"[1] == 'a';
    assert "anon"[0] == 'a' && "authenticated"[0] == 'a' && "authenticator"[0] == 'a' && "service_role"[0] == 's' && "PUBLIC"[0] == 'P';
  }

  /** MAIN: and with such a name it can differ: withholding it moves the first "acl=", and a grantee the
      first reading did not see is found. */
  lemma ASecondPublicationCanDiffer(rest: Text, detail: Text)
    requires rest == [Word("x"), Other(' '), Word("acl"), Other('='), Word("bar"), Other('='), Word("r")]
    requires detail == [Word("fooacl"), Other('=')] + rest
    ensures WordNames(ShiftedMark(detail)) && Published(Published(ShiftedMark(detail))) != Published(ShiftedMark(detail))
  {
    var v := ShiftedMark(detail);
    var w := {"fooacl"};
    FirstReading(rest, detail);
    Shifts(rest, detail);
    NotReportable();
    hide Reportable, RoleNames, ShiftedNames;
    var t: Text := [Word("bar")];
    assert t in ShiftedNames(v, [], w) && t[0].word == "bar";
    assert "bar" in Withheld(ShiftedNames(v, [], w));
    PublishingTwiceIsPublishingOnce(v);
  }

  lemma FirstReading(rest: Text, detail: Text)
    requires rest == [Word("x"), Other(' '), Word("acl"), Other('='), Word("bar"), Other('='), Word("r")]
    requires detail == [Word("fooacl"), Other('=')] + rest
    ensures WordNames(ShiftedMark(detail)) && Withheld(RoleNames(ShiftedMark(detail), [])) == {"fooacl"}
  {
    NotReportable();
    NamesOfShiftedMark([Word("fooacl")], detail);
    MarkFirst("fooacl", rest);
    NoEntry(rest[4..]);
    assert rest == [Word("x"), Other(' '), Word("acl"), Other('=')] + rest[4..];
    hide Reportable, RoleNames, AclNames, AfterAcl;
    var t: Text := [Word("fooacl")];
    assert RoleNames(ShiftedMark(detail), []) == {t};
    assert t[0].word == "fooacl";
  }

  lemma Shifts(rest: Text, detail: Text)
    requires rest == [Word("x"), Other(' '), Word("acl"), Other('='), Word("bar"), Other('='), Word("r")]
    requires detail == [Word("fooacl"), Other('=')] + rest
    ensures [Word("bar")] in ShiftedNames(ShiftedMark(detail), [], {"fooacl"})
  {
    var w := {"fooacl"};
    MarkFirst("fooacl", rest);
    NextMark(rest, detail);
    WordsTellApart();
    NothingToSubstitute(rest[4..], w);
    EntryFirst(rest[4..]);
    hide AclNames, AfterAcl, AfterStandingAcl, Substituted;
    var first, second := Entry([Word("role")], Str([Word("fooacl")])), Entry([Word("detail")], Str(detail));
    assert [first, second][1..] == [second];
    assert ShiftedOfEntries([second], w) >= ShiftedNames(second.value, second.key, w);
  }

  lemma WordsTellApart()
    ensures "bar" != "fooacl" && "r" != "fooacl" && "detail" != "fooacl" && "acl" != "fooacl" && "x" != "fooacl"
  {
    assert "x"[0] == 'x' && "acl"[0] == 'a' && "bar"[0] == 'b' && "r"[0] == 'r' && "fooacl"[0] == 'f' && "detail"[0] == 'd';
  }

  lemma PassBy(c: Token, x: Text, w: set<string>)
    requires c.Word? ==> c.word in w || (x != [] && x[0] != Other('='))
    ensures AfterStandingAcl([c] + x, w) == AfterStandingAcl(x, w)
  {
    assert ([c] + x)[1..] == x;
  }

  lemma NextMark(rest: Text, detail: Text)
    requires rest == [Word("x"), Other(' '), Word("acl"), Other('='), Word("bar"), Other('='), Word("r")]
    requires detail == [Word("fooacl"), Other('=')] + rest
    ensures AfterStandingAcl(detail, {"fooacl"}) == rest[4..]
  {
    hide AfterStandingAcl;
    var w := {"fooacl"};
    WordsTellApart();
    assert detail == [Word("fooacl")] + ([Other('=')] + rest);
    PassBy(Word("fooacl"), [Other('=')] + rest, w);
    PassBy(Other('='), rest, w);
    assert rest == [Word("x")] + rest[1..] && rest[1..] == [Other(' ')] + rest[2..];
    PassBy(Word("x"), rest[1..], w);
    PassBy(Other(' '), rest[2..], w);
    assert rest[2..] == [Word("acl"), Other('=')] + rest[4..];
    StandingMark(rest[4..], w);
  }

  lemma StandingMark(x: Text, w: set<string>)
    requires "acl" !in w
    ensures AfterStandingAcl([Word("acl"), Other('=')] + x, w) == x
  {
    assert ([Word("acl"), Other('=')] + x)[2..] == x;
  }

  lemma {:induction false} NothingToSubstitute(t: Text, w: set<string>)
    requires forall i :: 0 <= i < |t| && t[i].Word? ==> t[i].word !in w
    ensures Substituted(t, w) == t
  {
    if t != [] {
      NothingToSubstitute(t[1..], w);
    }
  }
}
