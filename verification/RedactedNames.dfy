/** The pattern scripts/apply_migration_0018.py builds of the withheld names, whatever characters they hold. */
module RedactedNames {
  // The alternatives are tried in the order of the list, from left to right, and no letter, digit or
  // underscore may stand before or after a match. Redaction.dfy is the case of single words.

  import opened Options
  import opened Redaction

  /** The name at the start of the text, with no word character on either side. */
  predicate Matches(n: Text, t: Text, afterWord: bool) {
    n != [] && n <= t && !afterWord && (|n| < |t| ==> !t[|n|].Word?)
  }

  function FirstMatch(ns: seq<Text>, t: Text, afterWord: bool): (n: Option<Text>)
    ensures n.Some? ==> n.value in ns && Matches(n.value, t, afterWord)
    ensures n == None ==> forall m :: m in ns ==> !Matches(m, t, afterWord)
  {
    if ns == [] then None
    else if Matches(ns[0], t, afterWord) then Some(ns[0])
    else FirstMatch(ns[1..], t, afterWord)
  }

  /** pattern.sub(WITHHELD, text) */
  function WithoutNames(t: Text, ns: seq<Text>, afterWord: bool): Text
    decreases |t|
  {
    if t == [] then []
    else
      match FirstMatch(ns, t, afterWord)
      case Some(n) => WITHHELD + WithoutNames(t[|n|..], ns, n[|n| - 1].Word?)
      case None => [t[0]] + WithoutNames(t[1..], ns, t[0].Word?)
  }

  /** The name stands in the text as a whole, at this place. */
  predicate StandsAt(n: Text, t: Text, i: nat) {
    && i + |n| <= |t| && t[i..i + |n|] == n
    && !(i > 0 && t[i - 1].Word?)
    && !(i + |n| < |t| && t[i + |n|].Word?)
  }

  // ------------------------------------------------------------------ single words

  predicate OneWord(n: Text) {
    |n| == 1 && n[0].Word?
  }

  lemma Tail(t: Text, k: nat)
    requires WellFormed(t) && k <= |t|
    ensures WellFormed(t[k..])
  {
    forall i | 0 <= i < |t[k..]| ensures t[k..][i] == t[k + i] {
    }
  }

  /** For names of one word each, this is the word-by-word substitution of Redaction.dfy. */
  lemma {:induction false} SameForWords(t: Text, ns: seq<Text>, w: set<string>, afterWord: bool)
    requires WellFormed(t) && (afterWord && t != [] ==> !t[0].Word?)
    requires forall n :: n in ns ==> OneWord(n)
    requires forall x :: x in w <==> [Word(x)] in ns
    ensures WithoutNames(t, ns, afterWord) == Substituted(t, w)
    decreases |t|
  {
    if t != [] {
      Tail(t, 1);
      SameForWords(t[1..], ns, w, t[0].Word?);
      hide WithoutNames, Substituted;
      OneStep(t, ns, w, afterWord);
      UnfoldBoth(t, ns, w, afterWord);
    }
  }

  lemma OneStep(t: Text, ns: seq<Text>, w: set<string>, afterWord: bool)
    requires t != [] && WellFormed(t) && (afterWord ==> !t[0].Word?)
    requires forall n :: n in ns ==> OneWord(n)
    requires forall x :: x in w <==> [Word(x)] in ns
    ensures FirstMatch(ns, t, afterWord) == if t[0].Word? && t[0].word in w then Some([t[0]]) else None
  {
    if t[0].Word? && t[0].word in w {
      assert [t[0]] in ns && Matches([t[0]], t, afterWord);
    }
    var m := FirstMatch(ns, t, afterWord);
    if m.Some? {
      assert m.value == [t[0]];
    }
  }

  lemma UnfoldBoth(t: Text, ns: seq<Text>, w: set<string>, afterWord: bool)
    requires t != []
    requires FirstMatch(ns, t, afterWord) == if t[0].Word? && t[0].word in w then Some([t[0]]) else None
    ensures WithoutNames(t, ns, afterWord) ==
      (if t[0].Word? && t[0].word in w then WITHHELD else [t[0]]) + WithoutNames(t[1..], ns, t[0].Word?)
    ensures Substituted(t, w) == (if t[0].Word? && t[0].word in w then WITHHELD else [t[0]]) + Substituted(t[1..], w)
  {
  }

  // ------------------------------------------------------------------ no name is left

  /** It begins and ends with a word, and holds neither word of the placeholder. */
  predicate Framed(n: Text) {
    n != [] && n[0].Word? && n[|n| - 1].Word? && Word("role") !in n && Word("withheld") !in n
  }

  /** What begins with a placeholder has "role" before any word that ends a name. */
  lemma PlaceholderStarts(rest: Text, m: nat)
    requires 0 < m <= |WITHHELD + rest| && (WITHHELD + rest)[m - 1].Word?
    ensures Word("role") in (WITHHELD + rest)[..m]
  {
    assert m >= 2;
    assert (WITHHELD + rest)[..m][1] == Word("role");
  }

  /** A published beginning without the placeholder is the beginning of what was there. */
  lemma {:induction false} PrefixStood(t: Text, ns: seq<Text>, afterWord: bool, m: nat)
    requires 0 < m <= |WithoutNames(t, ns, afterWord)|
    requires WithoutNames(t, ns, afterWord)[m - 1].Word? && Word("role") !in WithoutNames(t, ns, afterWord)[..m]
    ensures m <= |t| && t[..m] == WithoutNames(t, ns, afterWord)[..m]
    decreases |t|
  {
    var out := WithoutNames(t, ns, afterWord);
    match FirstMatch(ns, t, afterWord)
    case Some(n) =>
      PlaceholderStarts(WithoutNames(t[|n|..], ns, n[|n| - 1].Word?), m);
    case None =>
      hide FirstMatch, Matches;
      if m > 1 {
        var rest := WithoutNames(t[1..], ns, t[0].Word?);
        assert out == [t[0]] + rest;
        assert rest[..m - 1] == out[..m][1..] && rest[m - 2] == out[m - 1];
        PrefixStood(t[1..], ns, t[0].Word?, m - 1);
      }
  }

  lemma NotInPlaceholder(n: Text, rest: Text, i: nat)
    requires Framed(n) && StandsAt(n, WITHHELD + rest, i)
    ensures i >= |WITHHELD|
  {
    assert (WITHHELD + rest)[i..i + |n|][0] == (WITHHELD + rest)[i];
    assert n[0] in n;
  }

  lemma StandsFurtherOn(n: Text, first: Text, rest: Text, i: nat)
    requires |first| <= i && StandsAt(n, first + rest, i)
    ensures StandsAt(n, rest, i - |first|)
  {
    var out, k := first + rest, i - |first|;
    assert rest[k..k + |n|] == out[i..i + |n|];
    if k > 0 {
      assert rest[k - 1] == out[i - 1];
    }
    if k + |n| < |rest| {
      assert rest[k + |n|] == out[i + |n|];
    }
  }

  /** A framed name that is in the list is left nowhere, whatever the other names are. */
  lemma {:induction false} NotLeft(t: Text, ns: seq<Text>, afterWord: bool, n: Text, i: nat)
    requires WellFormed(t) && (afterWord && t != [] ==> !t[0].Word?)
    requires n in ns && Framed(n)
    ensures !StandsAt(n, WithoutNames(t, ns, afterWord), i)
    decreases |t|
  {
    var out := WithoutNames(t, ns, afterWord);
    if StandsAt(n, out, i) {
      match FirstMatch(ns, t, afterWord)
      case Some(m) =>
        var rest := WithoutNames(t[|m|..], ns, m[|m| - 1].Word?);
        NotInPlaceholder(n, rest, i);
        StandsFurtherOn(n, WITHHELD, rest, i);
        Tail(t, |m|);
        NotLeft(t[|m|..], ns, m[|m| - 1].Word?, n, i - |WITHHELD|);
      case None =>
        if i > 0 {
          var rest := WithoutNames(t[1..], ns, t[0].Word?);
          StandsFurtherOn(n, [t[0]], rest, i);
          Tail(t, 1);
          NotLeft(t[1..], ns, t[0].Word?, n, i - 1);
        } else {
          StoodAtTheStart(t, ns, afterWord, n);
        }
    }
  }

  lemma StoodAtTheStart(t: Text, ns: seq<Text>, afterWord: bool, n: Text)
    requires WellFormed(t) && t != [] && (afterWord ==> !t[0].Word?)
    requires Framed(n) && StandsAt(n, WithoutNames(t, ns, afterWord), 0)
    ensures Matches(n, t, afterWord)
  {
    var out := WithoutNames(t, ns, afterWord);
    assert out[..|n|] == n && out[|n| - 1] == n[|n| - 1];
    PrefixStood(t, ns, afterWord, |n|);
    hide WithoutNames;
    assert t[0] == n[0] && t[|n| - 1] == n[|n| - 1];
  }

  // ------------------------------------------------------------------ payloads

  /** Every key and string is read from characters. */
  ghost predicate AsRead(v: Payload) {
    forall t :: t in Texts(v) ==> WellFormed(t)
  }

  /** The names to withhold, in any order. */
  ghost predicate Lists(ns: seq<Text>, names: set<Text>) {
    forall n: Text :: n in ns <==> n in names && n != [] && !(OneWord(n) && Reportable(n[0].word))
  }

  function WithoutAny(ns: seq<Text>): Text -> Text {
    (t: Text) => WithoutNames(t, ns, false)
  }

  function PublishedWithout(v: Payload, ns: seq<Text>): Payload {
    if ns == [] then v else Mapped(v, WithoutAny(ns))
  }

  /** MAIN: whatever characters the names hold, no withheld name that begins and ends with a word, and is
      not made of the placeholder's, stands as a whole in any key or string. */
  lemma NoFramedNameIsLeft(v: Payload, ns: seq<Text>, n: Text, t: Text, i: nat)
    requires AsRead(v) && Lists(ns, RoleNames(v, []))
    requires n in ns && Framed(n) && t in Texts(PublishedWithout(v, ns))
    ensures !StandsAt(n, t, i)
  {
    MappedTexts(v, WithoutAny(ns));
    hide Texts, Mapped, RoleNames, StandsAt, Framed, WithoutNames;
    var ts, us := Texts(v), Texts(PublishedWithout(v, ns));
    var k :| 0 <= k < |us| && us[k] == t;
    assert ts[k] in ts;
    NotLeft(ts[k], ns, false, n, i);
  }

  lemma {:induction false} SameMapping(v: Payload, f: Text -> Text, g: Text -> Text)
    requires forall t :: t in Texts(v) ==> f(t) == g(t)
    ensures Mapped(v, f) == Mapped(v, g)
  {
    match v
    case Scalar =>
    case Str(t) => assert t in Texts(v);
    case List(items) => SameMappingOfAll(items, f, g);
    case Mapping(entries) => SameMappingOfEntries(entries, f, g);
  }

  lemma {:induction false} SameMappingOfAll(items: seq<Payload>, f: Text -> Text, g: Text -> Text)
    requires forall t :: t in TextsOfAll(items) ==> f(t) == g(t)
    ensures MappedAll(items, f) == MappedAll(items, g)
  {
    if items != [] {
      SameMapping(items[0], f, g);
      SameMappingOfAll(items[1..], f, g);
    }
  }

  lemma {:induction false} SameMappingOfEntries(entries: seq<Entry>, f: Text -> Text, g: Text -> Text)
    requires forall t :: t in TextsOfEntries(entries) ==> f(t) == g(t)
    ensures MappedEntries(entries, f) == MappedEntries(entries, g)
  {
    if entries != [] {
      assert entries[0].key in TextsOfEntries(entries);
      SameMapping(entries[0].value, f, g);
      SameMappingOfEntries(entries[1..], f, g);
    }
  }

  /** For single words this is the publication of Redaction.dfy. */
  lemma WordsAreACase(v: Payload, ns: seq<Text>)
    requires AsRead(v) && WordNames(v) && Lists(ns, RoleNames(v, []))
    ensures PublishedWithout(v, ns) == Published(v)
  {
    var w := Withheld(RoleNames(v, []));
    hide RoleNames, Texts, Reportable, Mapped;
    forall x ensures x in w <==> [Word(x)] in ns {
      WithheldWord(RoleNames(v, []), x);
      var t: Text := [Word(x)];
      assert t[0].word == x && OneWord(t);
    }
    forall n | n in ns ensures OneWord(n) {
    }
    forall t | t in Texts(v) ensures WithoutAny(ns)(t) == By(w)(t) {
      SameForWords(t, ns, w, false);
    }
    if ns != [] {
      assert ns[0] in ns && ns[0] == [Word(ns[0][0].word)];
    }
    SameMapping(v, WithoutAny(ns), By(w));
  }

  /** A name that begins with another character can be left: "-b" in "a-b", after "a". */
  lemma UnframedCanBeLeft(a: Text, b: Text)
    requires a == [Word("a")] && b == [Other('-'), Word("b")]
    ensures StandsAt(b, WithoutNames(a + b, [a, b], false), |WITHHELD|)
  {
    var t := a + b;
    assert a <= t && Matches(a, t, false);
    assert t[1..] == b;
    assert [a, b][0] == a;
    assert FirstMatch([a, b], t, false) == Some(a);
    assert WithoutNames(t, [a, b], false) == WITHHELD + WithoutNames(b, [a, b], true);
    assert b[1..] == [Word("b")];
    assert "a"[0] != "b"[0];
    assert !(a <= b[1..]);
    assert !(b <= b[1..]);
    assert WithoutNames([Word("b")], [a, b], false) == [Word("b")];
    assert WithoutNames(b, [a, b], true) == [b[0]] + WithoutNames(b[1..], [a, b], false);
  }
}
