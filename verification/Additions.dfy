/** The routes' comparison of a list that a migration may only add named rows to: what was there exactly,
    in order, and each new row once and as reviewed. */
module Additions {
  import opened Filters
  import opened Rows

  /** The rows of none of these names, in order. */
  function KeptRows<T>(rows: seq<T>, key: T -> string, names: set<string>): seq<T> {
    if rows == [] then []
    else
      var last := rows[|rows| - 1];
      KeptRows(rows[..|rows| - 1], key, names) + if key(last) in names then [] else [last]
  }

  function RowsNamed<T>(rows: seq<T>, key: T -> string, name: string): seq<T> {
    if rows == [] then []
    else
      var last := rows[|rows| - 1];
      RowsNamed(rows[..|rows| - 1], key, name) + if key(last) == name then [last] else []
  }

  function SetOf(names: seq<string>): set<string> {
    set name | name in names
  }

  predicate OnceAsReviewed<T>(rows: seq<T>, key: T -> string, name: string, review: (string, T) -> seq<Failure>) {
    |RowsNamed(rows, key, name)| == 1 && review(name, RowsNamed(rows, key, name)[0]) == []
  }

  /** `review`: what is wrong with a new row. */
  predicate AddedAsReviewed<T(==)>(pre: seq<T>, post: seq<T>, key: T -> string, names: seq<string>,
                                   review: (string, T) -> seq<Failure>) {
    && KeptRows(post, key, SetOf(names)) == pre
    && forall k :: 0 <= k < |names| ==> OnceAsReviewed(post, key, names[k], review)
  }

  method AdditionFailures<T(==)>(check: string, pre: seq<T>, post: seq<T>, key: T -> string, names: seq<string>,
                                 review: (string, T) -> seq<Failure>)
    returns (failures: seq<Failure>)
    ensures failures == [] <==> AddedAsReviewed(pre, post, key, names, review)
  {
    failures := UnchangedFailures(check, (row: T) => Text(key(row)), pre, KeptRows(post, key, SetOf(names)));
    ghost var kept := failures == [];
    for i := 0 to |names|
      invariant failures == [] <==> kept && forall k :: 0 <= k < i ==> OnceAsReviewed(post, key, names[k], review)
    {
      var found := RowsNamed(post, key, names[i]);
      if |found| != 1 {
        failures := failures + [Failure(check, Text(names[i]), if found == [] then Missing else Repeated)];
      } else {
        failures := failures + review(names[i], found[0]);
      }
    }
  }

  ghost predicate HasItem<T>(rows: seq<T>, key: T -> string, item: string) {
    exists row :: row in rows && key(row) == item
  }

  ghost predicate SomeNamed<T>(rows: seq<T>, key: T -> string, names: seq<string>) {
    exists row :: row in rows && key(row) in names
  }

  /** The routes' gate on such a list: "not a first apply", for every row of a new name that is there. */
  method NamedGate<T>(check: string, rows: seq<T>, key: T -> string, names: seq<string>) returns (failures: seq<Failure>)
    ensures failures != [] <==> SomeNamed(rows, key, names)
    ensures AllAreTheGate(failures) && (NamesTheGate(failures) <==> failures != [])
  {
    failures := [];
    for i := 0 to |rows|
      invariant failures != [] <==> exists k :: 0 <= k < i && key(rows[k]) in names
      invariant AllAreTheGate(failures)
    {
      if key(rows[i]) in names {
        failures := failures + [Failure(check, Text(key(rows[i])), NotAFirstApply)];
      }
    }
    if failures != [] {
      assert failures[0] in failures;
    }
  }

  lemma NewItemsAreThere<T>(pre: seq<T>, post: seq<T>, key: T -> string, names: seq<string>, review: (string, T) -> seq<Failure>)
    requires AddedAsReviewed(pre, post, key, names, review)
    ensures forall k :: 0 <= k < |names| ==> HasItem(post, key, names[k])
    ensures names != [] ==> SomeNamed(post, key, names)
  {
    forall k | 0 <= k < |names| ensures HasItem(post, key, names[k]) {
      assert OnceAsReviewed(post, key, names[k], review);
      NamedAt(post, key, names[k], 0);
    }
    if names != [] {
      assert HasItem(post, key, names[0]);
      var row :| row in post && key(row) == names[0];
      assert row in post && key(row) in names;
    }
  }

  lemma {:induction false} NamedRows<T>(rows: seq<T>, key: T -> string, name: string)
    ensures forall row :: row in RowsNamed(rows, key, name) <==> row in rows && key(row) == name
  {
    if rows != [] {
      NamedRows(rows[..|rows| - 1], key, name);
      assert rows == rows[..|rows| - 1] + [rows[|rows| - 1]];
    }
  }

  lemma {:induction false} NamedAt<T>(rows: seq<T>, key: T -> string, name: string, i: nat)
    requires i < |RowsNamed(rows, key, name)|
    ensures RowsNamed(rows, key, name)[i] in rows && key(RowsNamed(rows, key, name)[i]) == name
  {
    var n := |rows| - 1;
    assert rows == rows[..n] + [rows[n]];
    if i < |RowsNamed(rows[..n], key, name)| {
      NamedAt(rows[..n], key, name, i);
    }
  }

  lemma {:induction false} OneMoreName<T>(rows: seq<T>, key: T -> string, names: set<string>, name: string)
    requires name !in names
    ensures |KeptRows(rows, key, names)| == |KeptRows(rows, key, names + {name})| + |RowsNamed(rows, key, name)|
  {
    if rows != [] {
      OneMoreName(rows[..|rows| - 1], key, names, name);
    }
  }

  lemma {:induction false} NoNames<T>(rows: seq<T>, key: T -> string)
    ensures KeptRows(rows, key, {}) == rows
  {
    if rows != [] {
      NoNames(rows[..|rows| - 1], key);
      assert rows == rows[..|rows| - 1] + [rows[|rows| - 1]];
    }
  }

  /** MAIN: nothing else was added: the list is longer by exactly the new rows. */
  lemma {:induction false} NothingElseWasAdded<T>(pre: seq<T>, post: seq<T>, key: T -> string, names: seq<string>,
                                                  review: (string, T) -> seq<Failure>)
    requires AddedAsReviewed(pre, post, key, names, review) && Distinct(names)
    ensures |post| == |pre| + |names|
    ensures forall row :: row in pre ==> row in post && key(row) !in names
  {
    LongerBy(post, key, names, review);
    KeptIsRest(post, key, SetOf(names));
  }

  lemma {:induction false} LongerBy<T>(post: seq<T>, key: T -> string, names: seq<string>, review: (string, T) -> seq<Failure>)
    requires Distinct(names) && forall k :: 0 <= k < |names| ==> OnceAsReviewed(post, key, names[k], review)
    ensures |post| == |KeptRows(post, key, SetOf(names))| + |names|
  {
    if names == [] {
      NoNames(post, key);
      assert SetOf(names) == {};
    } else {
      var n := |names| - 1;
      LongerBy(post, key, names[..n], review);
      assert names[n] !in SetOf(names[..n]);
      OneMoreName(post, key, SetOf(names[..n]), names[n]);
      assert OnceAsReviewed(post, key, names[n], review);
      assert SetOf(names) == SetOf(names[..n]) + {names[n]};
    }
  }

  lemma {:induction false} KeptIsRest<T>(rows: seq<T>, key: T -> string, names: set<string>)
    ensures forall row :: row in KeptRows(rows, key, names) <==> row in rows && key(row) !in names
  {
    if rows != [] {
      KeptIsRest(rows[..|rows| - 1], key, names);
      assert rows == rows[..|rows| - 1] + [rows[|rows| - 1]];
    }
  }

  function NotAmong<T>(key: T -> string, names: set<string>): T -> bool {
    (row: T) => key(row) !in names
  }

  function Called<T>(key: T -> string, name: string): T -> bool {
    (row: T) => key(row) == name
  }

  lemma {:induction false} KeptIsFiltered<T>(rows: seq<T>, key: T -> string, names: set<string>)
    ensures Filtered(rows, KeptRows(rows, key, names), NotAmong(key, names))
  {
    hide Filtered;
    if rows == [] {
      NothingFiltered(NotAmong(key, names));
    } else {
      var before, last := rows[..|rows| - 1], rows[|rows| - 1];
      KeptIsFiltered(before, key, names);
      var kept := KeptRows(before, key, names);
      assert KeptRows(rows, key, names) == if NotAmong(key, names)(last) then kept + [last] else kept;
      hide KeptRows;
      OneMoreFiltered(before, kept, NotAmong(key, names), last);
      assert rows == before + [last];
    }
  }

  lemma {:induction false} NamedIsFiltered<T>(rows: seq<T>, key: T -> string, name: string)
    ensures Filtered(rows, RowsNamed(rows, key, name), Called(key, name))
  {
    hide Filtered;
    if rows == [] {
      NothingFiltered(Called(key, name));
    } else {
      var before, last := rows[..|rows| - 1], rows[|rows| - 1];
      NamedIsFiltered(before, key, name);
      var kept := RowsNamed(before, key, name);
      assert RowsNamed(rows, key, name) == if Called(key, name)(last) then kept + [last] else kept;
      hide RowsNamed;
      OneMoreFiltered(before, kept, Called(key, name), last);
      assert rows == before + [last];
    }
  }

  /** One row of the name, and it passes its review. */
  ghost predicate OnlyRow<T>(rows: seq<T>, key: T -> string, name: string, review: (string, T) -> seq<Failure>) {
    exists row :: row in rows && Filtered(rows, [row], Called(key, name)) && review(name, row) == []
  }

  /** MAIN: so the new list is accepted exactly when the rows of no new name are the old list, in order, and
      each new name has one row, which passes its review. */
  lemma AdditionsMean<T>(pre: seq<T>, post: seq<T>, key: T -> string, names: seq<string>, review: (string, T) -> seq<Failure>)
    ensures AddedAsReviewed(pre, post, key, names, review) <==>
      && Filtered(post, pre, NotAmong(key, SetOf(names)))
      && forall k :: 0 <= k < |names| ==> OnlyRow(post, key, names[k], review)
  {
    hide SetOf, KeptRows, RowsNamed, Filtered;
    KeptIsFiltered(post, key, SetOf(names));
    if Filtered(post, pre, NotAmong(key, SetOf(names))) {
      OneFiltering(post, pre, KeptRows(post, key, SetOf(names)), NotAmong(key, SetOf(names)));
    }
    forall k | 0 <= k < |names| ensures OnceAsReviewed(post, key, names[k], review) <==> OnlyRow(post, key, names[k], review) {
      OnceMeans(post, key, names[k], review);
    }
  }

  lemma OnceMeans<T>(rows: seq<T>, key: T -> string, name: string, review: (string, T) -> seq<Failure>)
    ensures OnceAsReviewed(rows, key, name, review) <==> OnlyRow(rows, key, name, review)
  {
    hide RowsNamed, Filtered;
    var named := RowsNamed(rows, key, name);
    NamedIsFiltered(rows, key, name);
    if OnceAsReviewed(rows, key, name, review) {
      NamedAt(rows, key, name, 0);
      assert named == [named[0]];
    }
    if OnlyRow(rows, key, name, review) {
      var row :| row in rows && Filtered(rows, [row], Called(key, name)) && review(name, row) == [];
      OneFiltering(rows, [row], named, Called(key, name));
    }
  }

  // ------------------------------------------------------------------ a list that must be exactly the reviewed one

  function Keys<T>(rows: seq<T>, key: T -> string): seq<string> {
    seq(|rows|, i requires 0 <= i < |rows| => key(rows[i]))
  }

  /** `review(k, row)`: what is wrong with the row of the k-th name. */
  predicate ListedAsReviewed<T>(rows: seq<T>, key: T -> string, names: seq<string>, review: (int, T) -> seq<Failure>) {
    && Keys(rows, key) == names && Distinct(names)
    && forall k :: 0 <= k < |rows| ==> review(k, rows[k]) == []
  }

  method ListFailures<T>(check: string, rows: seq<T>, key: T -> string, names: seq<string>, review: (int, T) -> seq<Failure>)
    returns (failures: seq<Failure>)
    ensures failures == [] <==> ListedAsReviewed(rows, key, names, review)
  {
    ghost var named := Keys(rows, key) == names;
    failures := if Keys(rows, key) == names then [] else [Failure(check, Null, Unreadable)];
    for i := 0 to |names|
      invariant failures == [] <==> named && forall k :: 0 <= k < i ==> OnceReviewed(rows, key, names, k, review)
    {
      var found := RowsNamed(rows, key, names[i]);
      var more := if |found| != 1 then [Failure(check, Text(names[i]), if found == [] then Missing else Repeated)] else review(i, found[0]);
      assert more == [] <==> OnceReviewed(rows, key, names, i, review);
      failures := failures + more;
    }
    OneByOne(rows, key, names, review);
  }

  predicate OnceReviewed<T>(rows: seq<T>, key: T -> string, names: seq<string>, k: int, review: (int, T) -> seq<Failure>)
    requires 0 <= k < |names|
  {
    |RowsNamed(rows, key, names[k])| == 1 && review(k, RowsNamed(rows, key, names[k])[0]) == []
  }

  /** Each name found once, in rows of just these names: so the names differ, and each row is its name's. */
  lemma OneByOne<T>(rows: seq<T>, key: T -> string, names: seq<string>, review: (int, T) -> seq<Failure>)
    ensures (Keys(rows, key) == names && forall k :: 0 <= k < |names| ==> OnceReviewed(rows, key, names, k, review)) <==>
      ListedAsReviewed(rows, key, names, review)
  {
    if Keys(rows, key) == names {
      assert |Keys(rows, key)| == |rows|;
      assert forall k :: 0 <= k < |rows| ==> key(rows[k]) == names[k];
      hide Keys, RowsNamed;
      if Distinct(names) {
        forall k | 0 <= k < |names| ensures RowsNamed(rows, key, names[k]) == [rows[k]] {
          NamedOnce(rows, key, k);
        }
        assert forall k :: 0 <= k < |names| ==> (OnceReviewed(rows, key, names, k, review) <==> review(k, rows[k]) == []);
      } else {
        var i, j :| 0 <= i < j < |names| && names[i] == names[j];
        NamedTwice(rows, key, i, j);
        assert !OnceReviewed(rows, key, names, i, review);
      }
    }
  }

  /** `review` is given each row and the reviewed one of its name. */
  lemma JustThese<T>(rows: seq<T>, key: T -> string, wanted: seq<T>, review: (int, T) -> seq<Failure>)
    requires forall k, row :: 0 <= k < |wanted| && key(row) == key(wanted[k]) ==> (review(k, row) == [] <==> row == wanted[k])
    ensures ListedAsReviewed(rows, key, Keys(wanted, key), review) <==> rows == wanted && Distinct(Keys(wanted, key))
  {
    if ListedAsReviewed(rows, key, Keys(wanted, key), review) {
      assert |Keys(rows, key)| == |Keys(wanted, key)|;
      forall k | 0 <= k < |wanted| ensures rows[k] == wanted[k] {
        assert Keys(rows, key)[k] == Keys(wanted, key)[k];
      }
    }
  }

  lemma {:induction false} NamedNever<T>(rows: seq<T>, key: T -> string, name: string)
    requires forall i :: 0 <= i < |rows| ==> key(rows[i]) != name
    ensures RowsNamed(rows, key, name) == []
  {
    if rows != [] {
      NamedNever(rows[..|rows| - 1], key, name);
    }
  }

  lemma {:induction false} NamedOnce<T>(rows: seq<T>, key: T -> string, k: nat)
    requires k < |rows| && forall i, j :: 0 <= i < j < |rows| ==> key(rows[i]) != key(rows[j])
    ensures RowsNamed(rows, key, key(rows[k])) == [rows[k]]
  {
    var n := |rows| - 1;
    if k < n {
      NamedOnce(rows[..n], key, k);
    } else {
      NamedNever(rows[..n], key, key(rows[n]));
    }
  }

  lemma {:induction false} NamedTwice<T>(rows: seq<T>, key: T -> string, i: nat, j: nat)
    requires i < j < |rows| && key(rows[i]) == key(rows[j])
    ensures |RowsNamed(rows, key, key(rows[i]))| >= 2
  {
    var n := |rows| - 1;
    if j < n {
      NamedTwice(rows[..n], key, i, j);
    } else {
      NamedSome(rows[..n], key, i);
    }
  }

  lemma {:induction false} NamedSome<T>(rows: seq<T>, key: T -> string, i: nat)
    requires i < |rows|
    ensures |RowsNamed(rows, key, key(rows[i]))| >= 1
  {
    var n := |rows| - 1;
    if i < n {
      NamedSome(rows[..n], key, i);
    }
  }
}
