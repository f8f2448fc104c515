/**
 * AuthenticationMethods lists (auth2.c): comma-separated strings of `method` or
 * `method:submethod` entries that are consumed from the front.
 *
 * The code works on the strings; the lemmas relate every operation to the list of entries
 * the string stands for.
 */
module MethodLists {
  import opened Octets

  // ---- strings as lists of entries

  /** strcspn: the index of the first `c`, or the length. */
  function Find(s: string, c: char): (k: nat)
    ensures k <= |s|
    ensures c !in s[..k]
    ensures k < |s| ==> s[k] == c
  {
    if s == [] || s[0] == c then 0
    else
      var k := 1 + Find(s[1..], c);
      assert s[..k] == [s[0]] + s[1..][..k - 1];
      k
  }

  /** The entries of a list; the empty string is the completed list. */
  function Entries(s: string): seq<string>
    decreases |s|
  {
    if s == "" then [] else
    var k := Find(s, ',');
    if k == |s| then [s] else [s[..k]] + Entries(s[k + 1..])
  }

  /** No empty entry and no trailing comma, so that `Entries` loses nothing. */
  predicate WellFormed(s: string)
    decreases |s|
  {
    s == "" ||
    (var k := Find(s, ',');
     k > 0 && (k == |s| || (s[k + 1..] != "" && WellFormed(s[k + 1..]))))
  }

  // ---- list_starts_with and remove_method

  datatype Match = MatchNone | MatchMethod | MatchBoth | MatchPartial

  predicate AtEntryEnd(p: string) { p == "" || p[0] == ',' }

  function ListStartsWith(methods: string, name: string, sub: Option<string>): Match {
    if !(name <= methods) then MatchNone
    else
      var p := methods[|name|..];
      if p != "" && p[0] == ':' then
        if sub.None? then MatchPartial
        else if !(sub.value <= p[1..]) then MatchNone
        else if AtEntryEnd(p[1..][|sub.value|..]) then MatchBoth else MatchNone
      else if AtEntryEnd(p) then MatchMethod else MatchNone
  }

  function SkipComma(p: string): string {
    if p != "" && p[0] == ',' then p[1..] else p
  }

  /** The list without its first entry, if that entry is the given name. */
  function RemoveMethod(methods: string, name: string, sub: Option<string>): Option<string> {
    match ListStartsWith(methods, name, sub)
    case MatchMethod => Some(SkipComma(methods[|name|..]))
    case MatchBoth =>
      if sub.Some? && |name| + 1 + |sub.value| <= |methods|
      then Some(SkipComma(methods[|name| + 1 + |sub.value|..]))
      else None
    case MatchNone => None
    case MatchPartial => None
  }

  /** An entry that a successful `name` (with submethod `sub`) satisfies. */
  predicate Satisfies(entry: string, name: string, sub: Option<string>) {
    entry == name || (sub.Some? && entry == name + ":" + sub.value)
  }

  predicate Plain(name: string, sub: Option<string>) {
    ',' !in name && ':' !in name && (sub.Some? ==> ',' !in sub.value)
  }

  lemma {:induction false} FindAfter(s: string, t: string, c: char)
    requires s <= t && c !in s
    ensures Find(t, c) == |s| + Find(t[|s|..], c)
  {
    if s != "" {
      assert s[0] in s && s[1..] <= t[1..];
      assert forall x :: x in s[1..] ==> x in s;
      FindAfter(s[1..], t[1..], c);
      assert t[1..][|s[1..]|..] == t[|s|..];
    } else {
      assert t[0..] == t;
    }
  }

  /** What follows the first entry. */
  function AfterFirst(s: string, k: nat): string
    requires k <= |s|
  {
    if k == |s| then "" else s[k + 1..]
  }

  lemma CutFirst(s: string, k: nat)
    requires s != "" && k == Find(s, ',') && WellFormed(s)
    ensures Entries(s) == [s[..k]] + Entries(AfterFirst(s, k)) && WellFormed(AfterFirst(s, k))
  {
    if k == |s| {
      assert s[..k] == s;
    }
  }

  /** The string `head + tail` with a comma-free head and a tail at an entry boundary. */
  lemma HeadEntry(methods: string, head: string)
    requires head <= methods && head != "" && ',' !in head && AtEntryEnd(methods[|head|..]) && WellFormed(methods)
    ensures Entries(methods) == [head] + Entries(SkipComma(methods[|head|..]))
    ensures WellFormed(SkipComma(methods[|head|..]))
    ensures |SkipComma(methods[|head|..])| < |methods|
    ensures var rest := SkipComma(methods[|head|..]); rest == methods[|methods| - |rest|..]
  {
    FindAfter(head, methods, ',');
    var p := methods[|head|..];
    assert Find(p, ',') == 0;
    CutFirst(methods, |head|);
    assert methods[..|head|] == head;
    assert SkipComma(p) == AfterFirst(methods, |head|) by {
      if p != "" { assert methods[|head| + 1..] == p[1..]; }
    }
  }

  lemma FirstField(p: string, w: string)
    requires ',' !in w
    ensures w <= p && AtEntryEnd(p[|w|..]) <==> p[..Find(p, ',')] == w
  {
    var k := Find(p, ',');
    if w <= p {
      FindAfter(w, p, ',');
    }
    if p[..k] == w {
      assert p[k..] == "" || p[k..][0] == p[k];
    }
  }

  /** The string forms of the three kinds of match. */
  lemma StartsWithCases(methods: string, name: string, sub: Option<string>)
    requires Plain(name, sub)
    ensures ListStartsWith(methods, name, sub).MatchMethod? <==> name <= methods && AtEntryEnd(methods[|name|..])
    ensures ListStartsWith(methods, name, sub).MatchPartial? <==> sub.None? && name + ":" <= methods
    ensures sub.Some? ==>
      var w := name + ":" + sub.value;
      ListStartsWith(methods, name, sub).MatchBoth? <==> w <= methods && AtEntryEnd(methods[|w|..])
    ensures sub.None? ==> !ListStartsWith(methods, name, sub).MatchBoth?
  {
    if name <= methods {
      var p := methods[|name|..];
      assert methods == name + p;
      if p != "" && p[0] == ':' && sub.Some? {
        var w := name + ":" + sub.value;
        assert sub.value <= p[1..] <==> w <= methods;
        if sub.value <= p[1..] {
          assert p[1..][|sub.value|..] == methods[|w|..];
        }
      }
    }
  }

  /** list_starts_with, read on entries: a match is exactly an equal first entry. */
  lemma StartsWithMeansFirstEntry(methods: string, name: string, sub: Option<string>)
    requires methods != "" && Plain(name, sub)
    ensures Entries(methods) != []
    ensures var entry := Entries(methods)[0];
      && (ListStartsWith(methods, name, sub).MatchMethod? <==> entry == name)
      && (ListStartsWith(methods, name, sub).MatchBoth? <==> sub.Some? && entry == name + ":" + sub.value)
      && (ListStartsWith(methods, name, sub).MatchPartial? <==> sub.None? && name + ":" <= entry)
  {
    StartsWithCases(methods, name, sub);
    var k := Find(methods, ',');
    assert Entries(methods)[0] == methods[..k];
    FirstField(methods, name);
    if sub.Some? {
      FirstField(methods, name + ":" + sub.value);
    } else if name + ":" <= methods {
      FindAfter(name + ":", methods, ',');
    }
  }

  /** Removing the entry w from the front leaves `rest`. */
  predicate RemovedAt(w: string, methods: string, name: string, sub: Option<string>, rest: string) {
    && w <= methods && ',' !in w && (name != "" ==> w != "") && Satisfies(w, name, sub)
    && AtEntryEnd(methods[|w|..]) && rest == SkipComma(methods[|w|..])
  }

  lemma RemoveCases(methods: string, name: string, sub: Option<string>)
    requires Plain(name, sub)
    ensures match RemoveMethod(methods, name, sub)
      case None => !ListStartsWith(methods, name, sub).MatchMethod? && !ListStartsWith(methods, name, sub).MatchBoth?
      case Some(rest) => exists w :: RemovedAt(w, methods, name, sub, rest)
  {
    match ListStartsWith(methods, name, sub)
    case MatchMethod => RemovesMethod(methods, name, sub);
    case MatchBoth => RemovesBoth(methods, name, sub);
    case MatchNone =>
    case MatchPartial =>
  }

  lemma RemovesMethod(methods: string, name: string, sub: Option<string>)
    requires Plain(name, sub) && ListStartsWith(methods, name, sub).MatchMethod?
    ensures RemoveMethod(methods, name, sub).Some?
    ensures RemovedAt(name, methods, name, sub, RemoveMethod(methods, name, sub).value)
  {
    StartsWithCases(methods, name, sub);
  }

  lemma RemovesBoth(methods: string, name: string, sub: Option<string>)
    requires Plain(name, sub) && ListStartsWith(methods, name, sub).MatchBoth?
    ensures sub.Some? && RemoveMethod(methods, name, sub).Some?
    ensures RemovedAt(name + ":" + sub.value, methods, name, sub, RemoveMethod(methods, name, sub).value)
  {
    StartsWithCases(methods, name, sub);
  }

  /** remove_method, read on entries: it drops the first entry exactly when that entry is
      satisfied, and what remains is a shorter suffix of the string. */
  lemma RemoveDropsFirstEntry(methods: string, name: string, sub: Option<string>)
    requires WellFormed(methods) && name != "" && Plain(name, sub)
    ensures RemoveMethod(methods, name, sub).Some? <==>
            methods != "" && Satisfies(Entries(methods)[0], name, sub)
    ensures RemoveMethod(methods, name, sub).Some? ==>
      var rest := RemoveMethod(methods, name, sub).value;
      && WellFormed(rest) && |rest| < |methods| && rest == methods[|methods| - |rest|..]
      && Entries(methods) == [Entries(methods)[0]] + Entries(rest)
  {
    RemoveCases(methods, name, sub);
    if RemoveMethod(methods, name, sub).Some? {
      var rest := RemoveMethod(methods, name, sub).value;
      var w :| RemovedAt(w, methods, name, sub, rest);
      HeadEntry(methods, w);
    } else if methods != "" {
      StartsWithMeansFirstEntry(methods, name, sub);
    }
  }

  // ---- validation of a configured list

  /** Which userauth function a method's table entry points to. */
  datatype Kind = NoneMethod | PubkeyMethod | PasswordMethod | KbdintMethod | HostbasedMethod

  datatype AuthMethod = AuthMethod(name: string, synonym: Option<string>, kind: Kind, enabled: bool)

  /** What repeated strsep(",") yields: unlike `Entries`, every field, empty ones too. */
  function Fields(s: string): seq<string>
    decreases |s|
  {
    var k := Find(s, ',');
    if k == |s| then [s] else [s[..k]] + Fields(s[k + 1..])
  }

  function FirstNamed(table: seq<AuthMethod>, name: string): Option<AuthMethod> {
    if table == [] then None
    else if table[0].name == name then Some(table[0])
    else FirstNamed(table[1..], name)
  }

  function BaseName(entry: string): string { entry[..Find(entry, ':')] }

  predicate EntryValid(entry: string, table: seq<AuthMethod>, needEnable: bool) {
    var m := FirstNamed(table, BaseName(entry));
    m.Some? && (needEnable ==> m.value.enabled)
  }

  predicate MethodsValid(methods: string, table: seq<AuthMethod>, needEnable: bool) {
    methods != "" && forall f :: f in Fields(methods) ==> EntryValid(f, table, needEnable)
  }

  predicate NamesNonEmpty(table: seq<AuthMethod>) {
    forall m :: m in table ==> m.name != ""
  }

  lemma {:induction false} FirstNamedIn(table: seq<AuthMethod>, name: string)
    ensures FirstNamed(table, name).Some? ==>
              FirstNamed(table, name).value in table && FirstNamed(table, name).value.name == name
  {
    if table != [] {
      FirstNamedIn(table[1..], name);
    }
  }

  /** A list that passes validation is well formed, and each of its entries names an enabled method. */
  lemma {:induction false} ValidIsWellFormed(methods: string, table: seq<AuthMethod>, needEnable: bool)
    requires MethodsValid(methods, table, needEnable) && NamesNonEmpty(table)
    ensures WellFormed(methods) && Entries(methods) == Fields(methods)
    decreases |methods|
  {
    var k := Find(methods, ',');
    var head := methods[..k];
    assert Fields(methods)[0] == head;
    assert EntryValid(head, table, needEnable);
    FirstNamedIn(table, BaseName(head));
    if k < |methods| {
      var rest := methods[k + 1..];
      assert Fields(methods) == [head] + Fields(rest);
      if rest == "" {
        assert Fields(rest) == [""];
        assert Fields(methods)[1] == "";
        assert EntryValid(Fields(methods)[1], table, needEnable);
        FirstNamedIn(table, BaseName(""));
        assert false;
      } else {
        ValidIsWellFormed(rest, table, needEnable);
      }
    } else {
      assert head == methods;
    }
  }

  /** The inner loop of auth2_methods_valid over the method table. */
  method SearchTable(table: seq<AuthMethod>, name: string) returns (m: Option<AuthMethod>)
    ensures m == FirstNamed(table, name)
  {
    for i := 0 to |table|
      invariant FirstNamed(table, name) == FirstNamed(table[i..], name)
    {
      assert table[i..][1..] == table[i + 1..];
      if table[i].name == name {
        return Some(table[i]);
      }
    }
    m := None;
  }

  /** auth2_methods_valid: strsep over a copy, looking each field up in the method table. */
  method CheckMethodsValid(list: string, table: seq<AuthMethod>, needEnable: bool) returns (ok: bool)
    ensures ok <==> MethodsValid(list, table, needEnable)
  {
    if list == "" {
      return false;
    }
    var rest, done := list, false;
    while !done
      invariant !done ==>
        (MethodsValid(list, table, needEnable) <==> forall f :: f in Fields(rest) ==> EntryValid(f, table, needEnable))
      invariant done ==> MethodsValid(list, table, needEnable)
      decreases if done then 0 else 1 + |rest|
    {
      var k := Find(rest, ',');
      var entry := rest[..k];
      assert Fields(rest)[0] == entry;
      var m := SearchTable(table, entry[..Find(entry, ':')]);
      if m.None? || (needEnable && !m.value.enabled) {
        assert !EntryValid(Fields(rest)[0], table, needEnable);
        return false;
      }
      if k == |rest| {
        done := true;
      } else {
        assert Fields(rest) == [entry] + Fields(rest[k + 1..]);
        rest := rest[k + 1..];
      }
    }
    ok := true;
  }

  // ---- all lists together

  predicate Allowed(lists: seq<string>, name: string, sub: Option<string>) {
    lists != [] && (ListStartsWith(lists[0], name, sub) != MatchNone || Allowed(lists[1..], name, sub))
  }

  /** auth2_method_allowed: some list starts with the method. */
  lemma {:induction false} AllowedMeaning(lists: seq<string>, name: string, sub: Option<string>)
    ensures Allowed(lists, name, sub) <==> exists i :: 0 <= i < |lists| && ListStartsWith(lists[i], name, sub) != MatchNone
  {
    if lists != [] {
      var tail := lists[1..];
      AllowedMeaning(tail, name, sub);
      if Allowed(tail, name, sub) {
        var i :| 0 <= i < |tail| && ListStartsWith(tail[i], name, sub) != MatchNone;
        assert lists[i + 1] == tail[i];
      }
      if i :| 0 < i < |lists| && ListStartsWith(lists[i], name, sub) != MatchNone {
        assert lists[i] == tail[i - 1];
      }
    }
  }

  /** The lists afterwards, whether one of them was completed, and whether any matched. */
  datatype Update = Update(lists: seq<string>, complete: bool, found: bool)

  function UpdateLists(lists: seq<string>, name: string, sub: Option<string>): Update {
    if lists == [] then Update([], false, false)
    else match RemoveMethod(lists[0], name, sub)
      case None =>
        var u := UpdateLists(lists[1..], name, sub);
        u.(lists := [lists[0]] + u.lists)
      case Some(rest) =>
        if rest == "" then Update([rest] + lists[1..], true, true)
        else
          var u := UpdateLists(lists[1..], name, sub);
          u.(lists := [rest] + u.lists, found := true)
  }

  /** One list after an update: untouched, or without its first entry. */
  predicate Updated(l: string, l': string, name: string, sub: Option<string>) {
    l' == l || RemoveMethod(l, name, sub) == Some(l')
  }

  lemma {:induction false} UpdateListsShape(lists: seq<string>, name: string, sub: Option<string>)
    ensures var u := UpdateLists(lists, name, sub);
      && |u.lists| == |lists|
      && (forall i :: 0 <= i < |lists| ==> Updated(lists[i], u.lists[i], name, sub))
      && (!u.complete ==> forall i :: 0 <= i < |lists| && RemoveMethod(lists[i], name, sub).Some?
                                      ==> RemoveMethod(lists[i], name, sub) == Some(u.lists[i]))
  {
    if lists != [] {
      UpdateListsShape(lists[1..], name, sub);
      assert forall i :: 0 < i < |lists| ==> lists[i] == lists[1..][i - 1];
    }
  }

  lemma {:induction false} UpdateListsFound(lists: seq<string>, name: string, sub: Option<string>)
    ensures UpdateLists(lists, name, sub).found <==> exists i :: 0 <= i < |lists| && RemoveMethod(lists[i], name, sub).Some?
  {
    if lists != [] {
      var tail := lists[1..];
      UpdateListsFound(tail, name, sub);
      if UpdateLists(tail, name, sub).found {
        var i :| 0 <= i < |tail| && RemoveMethod(tail[i], name, sub).Some?;
        assert lists[i + 1] == tail[i];
      }
      if i :| 0 < i < |lists| && RemoveMethod(lists[i], name, sub).Some? {
        assert lists[i] == tail[i - 1];
      }
    }
  }

  lemma {:induction false} UpdateListsComplete(lists: seq<string>, name: string, sub: Option<string>)
    ensures var u := UpdateLists(lists, name, sub);
      && |u.lists| == |lists|
      && (u.complete ==> exists i :: 0 <= i < |lists| && u.lists[i] == "" && RemoveMethod(lists[i], name, sub) == Some(""))
      && (!u.complete ==> forall i :: 0 <= i < |lists| ==> RemoveMethod(lists[i], name, sub) != Some(""))
  {
    if lists != [] {
      var tail := lists[1..];
      UpdateListsComplete(tail, name, sub);
      var (u, v) := (UpdateLists(lists, name, sub), UpdateLists(tail, name, sub));
      if RemoveMethod(lists[0], name, sub) == Some("") {
        assert u.complete && u.lists[0] == "";
      } else if v.complete {
        assert u.complete;
        var i :| 0 <= i < |tail| && v.lists[i] == "" && RemoveMethod(tail[i], name, sub) == Some("");
        assert lists[i + 1] == tail[i] && u.lists[i + 1] == v.lists[i];
      } else {
        forall i | 0 <= i < |lists| ensures RemoveMethod(lists[i], name, sub) != Some("") {
          if i > 0 { assert lists[i] == tail[i - 1]; }
        }
      }
    }
  }

  /** auth2_update_methods_lists: every list is untouched or loses its first entry, a list is completed
      exactly when the method was the last entry of some list, and the fatal "method not in
      AuthenticationMethods" is reached exactly when no list starts with the method. */
  lemma UpdateListsMeaning(lists: seq<string>, name: string, sub: Option<string>)
    ensures var u := UpdateLists(lists, name, sub);
      && |u.lists| == |lists|
      && (forall i :: 0 <= i < |lists| ==> Updated(lists[i], u.lists[i], name, sub))
      && (u.found <==> exists i :: 0 <= i < |lists| && RemoveMethod(lists[i], name, sub).Some?)
      && (u.complete <==> exists i :: 0 <= i < |lists| && RemoveMethod(lists[i], name, sub) == Some(""))
      && (u.complete ==> exists i :: 0 <= i < |lists| && u.lists[i] == "" && RemoveMethod(lists[i], name, sub) == Some(""))
      && (!u.complete ==> forall i :: 0 <= i < |lists| && RemoveMethod(lists[i], name, sub).Some?
                                      ==> RemoveMethod(lists[i], name, sub) == Some(u.lists[i]))
  {
    UpdateListsShape(lists, name, sub);
    UpdateListsFound(lists, name, sub);
    UpdateListsComplete(lists, name, sub);
  }

  function TotalLength(lists: seq<string>): nat {
    if lists == [] then 0 else |lists[0]| + TotalLength(lists[1..])
  }

  /** Every successful update consumes something. */
  lemma {:induction false} UpdateShrinks(lists: seq<string>, name: string, sub: Option<string>)
    requires name != "" && Plain(name, sub) && forall l :: l in lists ==> WellFormed(l)
    ensures var u := UpdateLists(lists, name, sub);
      TotalLength(u.lists) <= TotalLength(lists) && (u.found ==> TotalLength(u.lists) < TotalLength(lists))
  {
    if lists != [] {
      UpdateShrinks(lists[1..], name, sub);
      RemoveDropsFirstEntry(lists[0], name, sub);
      var u := UpdateLists(lists, name, sub);
      if RemoveMethod(lists[0], name, sub) == Some("") {
        assert u.lists[1..] == lists[1..];
      } else {
        assert u.lists[1..] == UpdateLists(lists[1..], name, sub).lists;
      }
    }
  }
}
