/** Which names scripts/apply_migration_0018.py withholds, said by where they stand in the payload. */
module RoleNamePositions {
  import opened Redaction

  // ------------------------------------------------------------------ the places of a payload

  /** The way down from a payload, entry by entry and item by item, to what is inside; `key` is that of the
      nearest entry above it, also through lists. */
  predicate Leads(v: Payload, under: Text, path: seq<nat>, inside: Payload, key: Text) {
    if path == [] then v == inside && under == key
    else
      match v
      case List(items) => path[0] < |items| && Leads(items[path[0]], under, path[1..], inside, key)
      case Mapping(entries) =>
        path[0] < |entries| && Leads(entries[path[0]].value, entries[path[0]].key, path[1..], inside, key)
      case _ => false
  }

  // ------------------------------------------------------------------ the places of a name

  predicate RoleField(key: Text) {
    key == [Word("role")] || key == [Word("member")] || key == [Word("owner")]
  }

  /** A key that ends in inventory_O, inventory_F or inventory_G. */
  ghost predicate OwnerSurfaces(key: Text) {
    key != [] && exists before: string ::
      || key[|key| - 1] == Word(before + "inventory_O")
      || key[|key| - 1] == Word(before + "inventory_F")
      || key[|key| - 1] == Word(before + "inventory_G")
  }

  /** What may stand between the grantee's "=" and the "/": letters and asterisks. */
  predicate PrivilegeMark(c: Token) {
    c == Other('*') || (c.Word? && forall i :: 0 <= i < |c.word| ==> 'a' <= c.word[i] <= 'z' || 'A' <= c.word[i] <= 'Z')
  }

  /** An ACL entry is printed grantee=privileges/grantor, at the start or after a brace or comma. */
  predicate GranteeAt(t: Text, i: nat) {
    && i + 1 < |t| && t[i].Word? && t[i + 1] == Other('=')
    && (i == 0 || t[i - 1] == Other('{') || t[i - 1] == Other(','))
  }

  predicate GrantorAt(t: Text, i: nat, j: nat) {
    && i <= j && j + 1 < |t| && t[j] == Other('/') && t[j + 1].Word?
    && forall k :: i <= k < j ==> PrivilegeMark(t[k])
  }

  ghost predicate GrantorFrom(t: Text, i: nat, n: Text) {
    exists j :: GrantorAt(t, i, j) && n == [t[j + 1]]
  }

  ghost predicate InAcl(t: Text, n: Text) {
    exists i: nat :: GranteeAt(t, i) && (n == [t[i]] || GrantorFrom(t, i + 2, n))
  }

  ghost predicate AclMark(t: Text, k: nat) {
    k + 1 < |t| && t[k + 1] == Other('=') && exists before: string :: t[k] == Word(before + "acl")
  }

  /** What follows the first "acl=". */
  ghost predicate AclFrom(t: Text, k: nat) {
    AclMark(t, k) && forall j :: 0 <= j < k ==> !AclMark(t, j)
  }

  ghost predicate NamedByText(t: Text, key: Text, n: Text) {
    || (RoleField(key) && t == n)
    || (key == [Word("acl")] && InAcl(t, n))
    || (key == [Word("detail")] && exists k :: AclFrom(t, k) && InAcl(t[k + 2..], n))
  }

  /** A detail of a surface whose details are owners. */
  ghost predicate NamedByOwner(entries: seq<Entry>, key: Text, n: Text) {
    OwnerSurfaces(key) && Entry([Word("detail")], Str(n)) in entries
  }

  ghost predicate NamedIn(inside: Payload, key: Text, n: Text) {
    match inside
    case Str(t) => NamedByText(t, key, n)
    case Mapping(entries) => NamedByOwner(entries, key, n)
    case _ => false
  }

  ghost predicate Named(v: Payload, under: Text, n: Text) {
    exists path, inside, key :: Leads(v, under, path, inside, key) && NamedIn(inside, key, n)
  }

  // ------------------------------------------------------------------ ... are those that are read

  lemma SuffixMeans(w: string, end: string)
    ensures EndsWith(w, end) <==> exists before :: w == before + end
  {
    if EndsWith(w, end) {
      assert w == w[..|w| - |end|] + end;
    }
  }

  lemma OwnerSurfacesMean(key: Text)
    ensures OwnerInventory(key) <==> OwnerSurfaces(key)
  {
    if key != [] && key[|key| - 1].Word? {
      var last := key[|key| - 1].word;
      SuffixMeans(last, "inventory_O");
      SuffixMeans(last, "inventory_F");
      SuffixMeans(last, "inventory_G");
      hide EndsWith;
    }
  }

  lemma MarkMeans(t: Text, k: nat)
    requires k < |t|
    ensures AclMarkAt(t, k) <==> AclMark(t, k)
  {
    if t[k].Word? {
      SuffixMeans(t[k].word, "acl");
    }
    hide EndsWith;
  }

  lemma PrivilegeMarkMeans(c: Token)
    ensures PrivilegeMark(c) <==> c == Other('*') || (c.Word? && Letters(c.word))
  {
  }

  lemma {:induction false} GrantorMeans(t: Text, i: nat, n: Text)
    requires i <= |t|
    ensures n in Grantor(t[i..]) <==> GrantorFrom(t, i, n)
    decreases |t| - i
  {
    if i < |t| {
      var rest := t[i..];
      assert rest[0] == t[i] && rest[1..] == t[i + 1..];
      PrivilegeMarkMeans(t[i]);
      hide PrivilegeMark, Letters;
      if PrivilegeMark(t[i]) {
        GrantorMeans(t, i + 1, n);
        hide Grantor;
        OneMoreMark(t, i, n);
      } else {
        assert |rest| > 1 ==> rest[1] == t[i + 1];
        hide Grantor;
        NoMark(t, i, n);
      }
    }
  }

  lemma OneMoreMark(t: Text, i: nat, n: Text)
    requires i < |t| && PrivilegeMark(t[i])
    ensures GrantorFrom(t, i, n) <==> GrantorFrom(t, i + 1, n)
  {
    assert t[i] != Other('/');
    hide PrivilegeMark;
    if GrantorFrom(t, i, n) {
      var j :| GrantorAt(t, i, j) && n == [t[j + 1]];
      assert GrantorAt(t, i + 1, j);
    }
    if GrantorFrom(t, i + 1, n) {
      var j :| GrantorAt(t, i + 1, j) && n == [t[j + 1]];
      assert GrantorAt(t, i, j);
    }
  }

  lemma NoMark(t: Text, i: nat, n: Text)
    requires i < |t| && !PrivilegeMark(t[i])
    ensures GrantorFrom(t, i, n) <==> t[i] == Other('/') && i + 1 < |t| && t[i + 1].Word? && n == [t[i + 1]]
  {
    hide PrivilegeMark;
    if GrantorFrom(t, i, n) {
      var j :| GrantorAt(t, i, j) && n == [t[j + 1]];
      assert j == i;
    }
    if t[i] == Other('/') && i + 1 < |t| && t[i + 1].Word? && n == [t[i + 1]] {
      assert GrantorAt(t, i, i);
    }
  }

  /** The names of the entry that begins at `i`, if one does. */
  ghost predicate EntryNames(t: Text, i: nat, n: Text) {
    && i + 1 < |t| && t[i].Word? && t[i + 1] == Other('=')
    && (n == [t[i]] || GrantorFrom(t, i + 2, n))
  }

  lemma EntryMeans(t: Text, i: nat, n: Text)
    requires i <= |t|
    ensures n in AclEntry(t[i..]) <==> EntryNames(t, i, n)
  {
    var rest := t[i..];
    if |rest| >= 2 {
      assert rest[0] == t[i] && rest[1] == t[i + 1] && rest[2..] == t[i + 2..];
      GrantorMeans(t, i + 2, n);
      hide Grantor, GrantorFrom;
    }
  }

  predicate EntryStart(t: Text, i: nat) {
    i <= |t| && (i == 0 || t[i - 1] == Other('{') || t[i - 1] == Other(','))
  }

  /** From place `i` on, entries that begin there or later. */
  lemma {:induction false} AclNamesFrom(t: Text, i: nat, n: Text)
    requires i <= |t|
    ensures n in AclNames(t[i..], false) <==> exists k: nat :: k > i && EntryStart(t, k) && EntryNames(t, k, n)
    decreases |t| - i
  {
    hide EntryNames, AclEntry;
    if i < |t| {
      assert t[i..][0] == t[i] && t[i..][1..] == t[i + 1..];
      AclNamesFrom(t, i + 1, n);
      EntryMeans(t, i + 1, n);
    }
  }

  lemma AclNamesMean(t: Text, n: Text)
    ensures n in AclNames(t, true) <==> InAcl(t, n)
  {
    hide GrantorFrom;
    assert t[0..] == t;
    EntryMeans(t, 0, n);
    AclNamesFrom(t, 0, n);
    StartMakesNoOther(t, n);
    assert forall i: nat :: GranteeAt(t, i) && (n == [t[i]] || GrantorFrom(t, i + 2, n)) <==> EntryStart(t, i) && EntryNames(t, i, n);
    hide AclNames, AclEntry, EntryNames, GranteeAt, EntryStart;
    assert EntryStart(t, 0) by {
      StartsAtFirst(t);
    }
  }

  lemma StartsAtFirst(t: Text)
    ensures EntryStart(t, 0)
  {
  }

  lemma StartMakesNoOther(t: Text, n: Text)
    ensures n in AclNames(t, true) <==> (t != [] && n in AclEntry(t)) || n in AclNames(t, false)
  {
    hide AclEntry;
  }

  lemma {:induction false} AfterAclMeans(t: Text, i: nat)
    requires i <= |t| && forall j :: 0 <= j < i ==> !AclMark(t, j)
    ensures (exists k :: AclFrom(t, k) && AfterAcl(t[i..]).1 == t[k + 2..])
         || ((forall k: nat :: !AclMark(t, k)) && AfterAcl(t[i..]).1 == [])
    decreases |t| - i
  {
    if i < |t| {
      var rest := t[i..];
      assert rest[0] == t[i] && rest[1..] == t[i + 1..];
      MarkMeans(t, i);
      assert AclMarkAt(rest, 0) <==> AclMarkAt(t, i) by {
        assert i + 1 < |t| ==> rest[1] == t[i + 1];
      }
      hide AclMark, AclMarkAt;
      if AclMarkAt(t, i) {
        assert AclFrom(t, i);
        MarkFits(t, i);
        assert rest[2..] == t[i + 2..];
      } else {
        AfterAclMeans(t, i + 1);
      }
    }
  }

  lemma MarkFits(t: Text, k: nat)
    requires AclMark(t, k)
    ensures k + 1 < |t|
  {
  }

  lemma TextNamesMean(t: Text, key: Text, n: Text)
    ensures n in TextNames(t, key) <==> NamedByText(t, key, n)
  {
    AclNamesMean(t, n);
    AclNamesMean(AfterAcl(t).1, n);
    AfterAclMeans(t, 0);
    assert t[0..] == t;
    assert RoleKey(key) <==> RoleField(key);
    hide AclNames, AfterAcl, InAcl, AclMark, RoleKey, RoleField;
    if k :| AclFrom(t, k) && AfterAcl(t).1 == t[k + 2..] {
      forall j | AclFrom(t, j) ensures j == k {
        OneFirstMark(t, j, k);
      }
    } else {
      NothingInAcl(n);
    }
  }

  lemma OneFirstMark(t: Text, j: nat, k: nat)
    requires AclFrom(t, j) && AclFrom(t, k)
    ensures j == k
  {
    hide AclMark;
  }

  lemma NothingInAcl(n: Text)
    ensures !InAcl([], n)
  {
  }

  // ------------------------------------------------------------------ the walk

  lemma {:induction false} AllByIndex(items: seq<Payload>, key: Text, n: Text)
    ensures n in NamesOfAll(items, key) <==> exists i :: 0 <= i < |items| && n in RoleNames(items[i], key)
  {
    hide RoleNames;
    if items != [] {
      AllByIndex(items[1..], key, n);
      assert forall i :: 0 <= i < |items| - 1 ==> items[1..][i] == items[i + 1];
      if i :| 0 <= i < |items| && n in RoleNames(items[i], key) {
        assert i > 0 ==> items[1..][i - 1] == items[i];
      }
    }
  }

  ghost predicate NameOfEntry(e: Entry, key: Text, n: Text) {
    (OwnerSurfaces(key) && e == Entry([Word("detail")], Str(n))) || n in RoleNames(e.value, e.key)
  }

  lemma {:induction false} EntriesByIndex(entries: seq<Entry>, key: Text, n: Text)
    ensures n in NamesOfEntries(entries, key) <==> exists i :: 0 <= i < |entries| && NameOfEntry(entries[i], key, n)
  {
    OwnerSurfacesMean(key);
    hide OwnerInventory, OwnerSurfaces, RoleNames;
    if entries != [] {
      EntriesByIndex(entries[1..], key, n);
      FirstEntryNames(entries, key, n);
      hide NamesOfEntries, NameOfEntry;
      assert forall i :: 0 <= i < |entries| - 1 ==> entries[1..][i] == entries[i + 1];
      if i :| 0 <= i < |entries| && NameOfEntry(entries[i], key, n) {
        assert i > 0 ==> entries[1..][i - 1] == entries[i];
      }
    }
  }

  lemma FirstEntryNames(entries: seq<Entry>, key: Text, n: Text)
    requires entries != []
    ensures n in NamesOfEntries(entries, key) <==> NameOfEntry(entries[0], key, n) || n in NamesOfEntries(entries[1..], key)
  {
    OwnerSurfacesMean(key);
    hide OwnerInventory, OwnerSurfaces, RoleNames;
    var e := entries[0];
    assert e == Entry([Word("detail")], Str(n)) <==> e.key == [Word("detail")] && e.value.Str? && e.value.text == n;
  }

  /** What is named inside is named here, or in one of the parts. */
  lemma NamedInText(t: Text, under: Text, n: Text)
    ensures Named(Str(t), under, n) <==> NamedByText(t, under, n)
  {
    hide NamedByText;
    if Named(Str(t), under, n) {
      var path, inside, key :| Leads(Str(t), under, path, inside, key) && NamedIn(inside, key, n);
    }
    if NamedByText(t, under, n) {
      assert Leads(Str(t), under, [], Str(t), under);
    }
  }

  lemma NamedInList(items: seq<Payload>, under: Text, n: Text)
    ensures Named(List(items), under, n) <==> exists i :: 0 <= i < |items| && Named(items[i], under, n)
  {
    hide NamedByText, NamedByOwner;
    if Named(List(items), under, n) {
      var path, inside, key :| Leads(List(items), under, path, inside, key) && NamedIn(inside, key, n);
      assert Leads(items[path[0]], under, path[1..], inside, key);
    }
    if i :| 0 <= i < |items| && Named(items[i], under, n) {
      var path, inside, key :| Leads(items[i], under, path, inside, key) && NamedIn(inside, key, n);
      StepDown(List(items), under, i, path, inside, key);
    }
  }

  lemma NamedInMapping(entries: seq<Entry>, under: Text, n: Text)
    ensures Named(Mapping(entries), under, n) <==>
      NamedByOwner(entries, under, n) || exists i :: 0 <= i < |entries| && Named(entries[i].value, entries[i].key, n)
  {
    hide NamedByText, NamedByOwner;
    var v := Mapping(entries);
    if Named(v, under, n) {
      var path, inside, key :| Leads(v, under, path, inside, key) && NamedIn(inside, key, n);
      if path != [] {
        assert Leads(entries[path[0]].value, entries[path[0]].key, path[1..], inside, key);
      }
    }
    if NamedByOwner(entries, under, n) {
      assert Leads(v, under, [], v, under);
    }
    if i :| 0 <= i < |entries| && Named(entries[i].value, entries[i].key, n) {
      var path, inside, key :| Leads(entries[i].value, entries[i].key, path, inside, key) && NamedIn(inside, key, n);
      StepDown(v, under, i, path, inside, key);
    }
  }

  /** One step, and then the rest of the way. */
  lemma StepDown(v: Payload, under: Text, i: nat, path: seq<nat>, inside: Payload, key: Text)
    requires v.List? ==> i < |v.items| && Leads(v.items[i], under, path, inside, key)
    requires v.Mapping? ==> i < |v.entries| && Leads(v.entries[i].value, v.entries[i].key, path, inside, key)
    requires v.List? || v.Mapping?
    ensures Leads(v, under, [i] + path, inside, key)
  {
    assert ([i] + path)[1..] == path;
  }

  /** MAIN: the names read are just those that stand at a place of a name, at any depth. */
  lemma {:induction false} NamesByPosition(v: Payload, under: Text, n: Text)
    ensures n in RoleNames(v, under) <==> Named(v, under, n)
  {
    match v
    case Scalar =>
    case Str(t) =>
      TextNamesMean(t, under, n);
      NamedInText(t, under, n);
      hide Named, TextNames, NamedByText;
    case List(items) =>
      NamedInList(items, under, n);
      AllByIndex(items, under, n);
      hide Named;
      forall i | 0 <= i < |items| ensures n in RoleNames(items[i], under) <==> Named(items[i], under, n) {
        NamesByPosition(items[i], under, n);
      }
    case Mapping(entries) =>
      NamedInMapping(entries, under, n);
      EntriesByIndex(entries, under, n);
      hide Named, OwnerSurfaces;
      forall i | 0 <= i < |entries| ensures n in RoleNames(entries[i].value, entries[i].key) <==> Named(entries[i].value, entries[i].key, n) {
        NamesByPosition(entries[i].value, entries[i].key, n);
      }
  }

  // ------------------------------------------------------------------ what may be reported

  predicate SmallOrDigit(c: char) {
    'a' <= c <= 'z' || '0' <= c <= '9' || c == '_'
  }

  predicate PublicTail(tail: string) {
    1 <= |tail| <= 58 && forall i :: 0 <= i < |tail| ==> SmallOrDigit(tail[i])
  }

  /** PUBLIC, the API's roles, and the names that begin with pg_ or ucpe_. */
  ghost predicate PublicName(n: string) {
    || n == "PUBLIC" || n == "anon" || n == "authenticated" || n == "authenticator" || n == "service_role"
    || exists tail :: PublicTail(tail) && (n == "pg_" + tail || n == "ucpe_" + tail)
  }

  lemma TailMeans(n: string, start: string)
    ensures (|start| + 1 <= |n| <= |start| + 58 && n[..|start|] == start && forall i :: |start| <= i < |n| ==> SmallOrDigit(n[i]))
       <==> exists tail :: PublicTail(tail) && n == start + tail
  {
    if |start| <= |n| && n[..|start|] == start {
      var tail := n[|start|..];
      assert n == start + tail;
      assert forall i :: 0 <= i < |tail| ==> tail[i] == n[|start| + i];
      assert forall i :: |start| <= i < |n| ==> n[i] == tail[i - |start|];
    }
    forall tail | PublicTail(tail) && n == start + tail
      ensures |start| + 1 <= |n| <= |start| + 58 && n[..|start|] == start
      ensures forall i :: |start| <= i < |n| ==> SmallOrDigit(n[i])
    {
      assert forall i :: |start| <= i < |n| ==> n[i] == tail[i - |start|];
    }
  }

  lemma ReportableMeans(n: string)
    ensures Reportable(n) <==> PublicName(n)
  {
    TailMeans(n, "pg_");
    TailMeans(n, "ucpe_");
    hide PublicTail;
  }

  // ------------------------------------------------------------------ what is left

  /** The word stands in the string, or in a key of the mapping, at this place. */
  predicate HoldsWord(inside: Payload, x: string) {
    || (inside.Str? && Word(x) in inside.text)
    || (inside.Mapping? && exists e :: e in inside.entries && Word(x) in e.key)
  }

  ghost predicate Left(v: Payload, x: string) {
    exists path, inside, key :: Leads(v, [], path, inside, key) && HoldsWord(inside, x)
  }

  lemma {:induction false} WayIsRead(v: Payload, under: Text, path: seq<nat>, inside: Payload, key: Text, x: string)
    requires Leads(v, under, path, inside, key) && HoldsWord(inside, x)
    ensures Occurs(v, x)
    decreases |path|
  {
    if path == [] {
      if v.Str? {
        assert v.text in Texts(v) && Stands(x, v.text);
      } else {
        var e :| e in v.entries && Word(x) in e.key;
        var i :| 0 <= i < |v.entries| && v.entries[i] == e;
        EntryTexts(v.entries, i, e.key);
        assert e.key in Texts(v) && Stands(x, e.key);
      }
    } else {
      match v
      case List(items) =>
        WayIsRead(items[path[0]], under, path[1..], inside, key, x);
        var t :| t in Texts(items[path[0]]) && Stands(x, t);
        ItemTexts(items, path[0], t);
        assert t in Texts(v);
      case Mapping(entries) =>
        WayIsRead(entries[path[0]].value, entries[path[0]].key, path[1..], inside, key, x);
        var t :| t in Texts(entries[path[0]].value) && Stands(x, t);
        EntryTexts(entries, path[0], t);
        assert t in Texts(v);
    }
  }

  lemma {:induction false} ItemTexts(items: seq<Payload>, i: nat, t: Text)
    requires i < |items| && t in Texts(items[i])
    ensures t in TextsOfAll(items)
  {
    if i > 0 {
      ItemTexts(items[1..], i - 1, t);
    }
  }

  lemma {:induction false} EntryTexts(entries: seq<Entry>, i: nat, t: Text)
    requires i < |entries| && (t == entries[i].key || t in Texts(entries[i].value))
    ensures t in TextsOfEntries(entries)
  {
    if i > 0 {
      EntryTexts(entries[1..], i - 1, t);
    }
  }

  /** MAIN: no name that stands at a place of a name, and may not be reported, is left anywhere in what is
      published, as a whole word in a string or a key; but the placeholder's own words. */
  lemma NoNamedRoleIsLeft(v: Payload, x: string)
    requires WordNames(v) && Named(v, [], [Word(x)]) && !PublicName(x) && x != "role" && x != "withheld"
    ensures !Left(Published(v), x)
  {
    var w := Withheld(RoleNames(v, []));
    ReportableMeans(x);
    NamesByPosition(v, [], [Word(x)]);
    hide Named, RoleNames, PublicName, Reportable, Occurs;
    WithheldWord(RoleNames(v, []), x);
    ReplacedOccurs(v, w, x);
    if Left(Published(v), x) {
      var path, inside, key :| Leads(Published(v), [], path, inside, key) && HoldsWord(inside, x);
      WayIsRead(Published(v), [], path, inside, key, x);
    }
  }

  // ------------------------------------------------------------------ the rest stays

  /** Of each text, every word that is not withheld, and every character between words, stays in place. */
  lemma {:induction false} ReplacedPiecewise(t: Text, i: nat, w: set<string>)
    requires i <= |t|
    ensures Substituted(t, w) == Substituted(t[..i], w) + Substituted(t[i..], w)
  {
    if i == 0 {
      assert t[..0] == [] && t[0..] == t;
    } else {
      ReplacedPiecewise(t[1..], i - 1, w);
      assert t[..i][0] == t[0] && t[..i][1..] == t[1..][..i - 1] && t[1..][i - 1..] == t[i..];
    }
  }

  lemma ReplacedPiece(c: Token, w: set<string>)
    ensures Substituted([c], w) ==
      if c.Word? && c.word in w then [Other('<'), Word("role"), Other(' '), Word("withheld"), Other('>')] else [c]
  {
    assert [c][1..] == [];
  }

  /** Nothing moves: what is at a place is there afterwards, put through the same replacement. */
  lemma {:induction false} PlacesStay(v: Payload, under: Text, path: seq<nat>, inside: Payload, key: Text, w: set<string>)
    requires Leads(v, under, path, inside, key)
    ensures Leads(Replaced(v, w), Substituted(under, w), path, Replaced(inside, w), Substituted(key, w))
    decreases |path|
  {
    hide Substituted;
    if path != [] {
      match v
      case List(items) =>
        MappedItem(items, path[0], w);
        PlacesStay(items[path[0]], under, path[1..], inside, key, w);
      case Mapping(entries) =>
        MappedEntry(entries, path[0], w);
        PlacesStay(entries[path[0]].value, entries[path[0]].key, path[1..], inside, key, w);
    }
  }

  lemma {:induction false} MappedItem(items: seq<Payload>, i: nat, w: set<string>)
    requires i < |items|
    ensures |MappedAll(items, By(w))| == |items| && MappedAll(items, By(w))[i] == Replaced(items[i], w)
  {
    if i > 0 {
      MappedItem(items[1..], i - 1, w);
    } else if |items| > 1 {
      MappedItem(items[1..], 0, w);
    }
  }

  lemma {:induction false} MappedEntry(entries: seq<Entry>, i: nat, w: set<string>)
    requires i < |entries|
    ensures |MappedEntries(entries, By(w))| == |entries|
    ensures MappedEntries(entries, By(w))[i] == Entry(Substituted(entries[i].key, w), Replaced(entries[i].value, w))
  {
    hide Substituted;
    if i > 0 {
      MappedEntry(entries[1..], i - 1, w);
    } else if |entries| > 1 {
      MappedEntry(entries[1..], 0, w);
    }
  }
}
