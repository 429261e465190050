/** The tags and fields of a metric (metric/metric.go): the tags are a list of objects kept in strictly
    ascending order of their keys, the fields a list in order of arrival with each key once. */
module MetricTags {
  import opened Strings

  /** A key and a value. */
  datatype Pair = Pair(key: string, value: string)

  predicate StrictlyAscending(ps: seq<Pair>) {
    forall i, j :: 0 <= i < j < |ps| ==> Less(ps[i].key, ps[j].key)
  }

  function MapOf(ps: seq<Pair>): map<string, string> {
    if ps == [] then map[] else MapOf(ps[..|ps| - 1])[ps[|ps| - 1].key := ps[|ps| - 1].value]
  }

  predicate HasKey(ps: seq<Pair>, key: string) {
    exists i :: 0 <= i < |ps| && ps[i].key == key
  }

  // A list and its map.

  lemma {:induction false} MapOfKeys(ps: seq<Pair>, key: string)
    ensures key in MapOf(ps) <==> HasKey(ps, key)
  {
    if ps != [] {
      var n := |ps| - 1;
      MapOfKeys(ps[..n], key);
      if HasKey(ps[..n], key) {
        var i :| 0 <= i < n && ps[..n][i].key == key;
        assert ps[i].key == key;
      }
      if i :| 0 <= i < |ps| && ps[i].key == key {
        assert i < n ==> ps[..n][i].key == key;
      }
    }
  }

  lemma {:induction false} MapOfAt(ps: seq<Pair>, i: nat)
    requires StrictlyAscending(ps) && i < |ps|
    ensures ps[i].key in MapOf(ps) && MapOf(ps)[ps[i].key] == ps[i].value
  {
    var n := |ps| - 1;
    if i < n {
      LessIsTotal(ps[i].key, ps[n].key);
      MapOfAt(ps[..n], i);
    }
  }

  /** A map is that of a list if it has the keys and values of the list. */
  lemma {:induction false} MapOfIs(ps: seq<Pair>, m: map<string, string>)
    requires StrictlyAscending(ps)
    requires forall i :: 0 <= i < |ps| ==> ps[i].key in m && m[ps[i].key] == ps[i].value
    requires forall key :: key in m ==> HasKey(ps, key)
    ensures MapOf(ps) == m
  {
    forall key: string
      ensures (key in m <==> key in MapOf(ps)) && (key in m ==> m[key] == MapOf(ps)[key])
    {
      MapOfKeys(ps, key);
      if HasKey(ps, key) {
        var i :| 0 <= i < |ps| && ps[i].key == key;
        MapOfAt(ps, i);
      }
    }
  }

  /** There is only one list for a map. */
  lemma {:induction false} ListIsCanonical(ps: seq<Pair>, qs: seq<Pair>)
    requires StrictlyAscending(ps) && StrictlyAscending(qs) && MapOf(ps) == MapOf(qs)
    ensures ps == qs
  {
    if ps == [] || qs == [] {
      if qs != [] {
        MapOfAt(qs, 0);
      } else if ps != [] {
        MapOfAt(ps, 0);
      }
    } else {
      var n, k := |ps| - 1, |qs| - 1;
      LastKeyIsGreatest(ps, qs);
      LastKeyIsGreatest(qs, ps);
      LessIsTotal(ps[n].key, qs[k].key);
      assert ps[n].key == qs[k].key;
      MapOfAt(ps, n);
      MapOfAt(qs, k);
      InitMap(ps);
      InitMap(qs);
      ListIsCanonical(ps[..n], qs[..k]);
      assert ps == ps[..n] + [ps[n]] && qs == qs[..k] + [qs[k]];
    }
  }

  lemma {:induction false} LastKeyIsGreatest(ps: seq<Pair>, qs: seq<Pair>)
    requires ps != [] && qs != [] && StrictlyAscending(ps) && StrictlyAscending(qs) && MapOf(ps) == MapOf(qs)
    ensures !Less(ps[|ps| - 1].key, qs[|qs| - 1].key)
  {
    var key, last := qs[|qs| - 1].key, ps[|ps| - 1].key;
    MapOfAt(qs, |qs| - 1);
    MapOfKeys(ps, key);
    var i :| 0 <= i < |ps| && ps[i].key == key;
    LessIsTotal(last, key);
    assert i < |ps| - 1 ==> Less(key, last);
  }

  lemma {:induction false} InitMap(ps: seq<Pair>)
    requires ps != [] && StrictlyAscending(ps)
    ensures MapOf(ps[..|ps| - 1]) == MapOf(ps) - {ps[|ps| - 1].key}
  {
    var n := |ps| - 1;
    MapOfKeys(ps[..n], ps[n].key);
    assert forall i :: 0 <= i < n ==> Less(ps[i].key, ps[n].key);
    LessIsTotal(ps[n].key, ps[n].key);
    assert !HasKey(ps[..n], ps[n].key);
  }

  // Editing the list.

  /** Replacing the value at `i`. */
  lemma {:induction false} ReplaceIsUpdate(ps: seq<Pair>, i: nat, value: string)
    requires StrictlyAscending(ps) && i < |ps|
    ensures var qs := ps[i := Pair(ps[i].key, value)];
            StrictlyAscending(qs) && MapOf(qs) == MapOf(ps)[ps[i].key := value]
  {
    var qs, m := ps[i := Pair(ps[i].key, value)], MapOf(ps)[ps[i].key := value];
    assert forall j :: 0 <= j < |ps| ==> qs[j].key == ps[j].key;
    forall j | 0 <= j < |qs|
      ensures qs[j].key in m && m[qs[j].key] == qs[j].value
    {
      MapOfAt(ps, j);
      if j < i {
        LessIsTotal(ps[j].key, ps[i].key);
      } else if i < j {
        LessIsTotal(ps[i].key, ps[j].key);
      }
    }
    forall key | key in m
      ensures HasKey(qs, key)
    {
      MapOfKeys(ps, key);
      var j :| 0 <= j < |ps| && (ps[j].key == key || (key == ps[i].key && j == i));
      assert qs[j].key == key;
    }
    MapOfIs(qs, m);
  }

  function InsertAt<T>(ps: seq<T>, i: nat, p: T): (qs: seq<T>)
    requires i <= |ps|
    ensures |qs| == |ps| + 1 && qs[i] == p
    ensures forall j :: 0 <= j < i ==> qs[j] == ps[j]
    ensures forall j :: i <= j < |ps| ==> qs[j + 1] == ps[j]
    ensures forall j :: i < j < |qs| ==> qs[j] == ps[j - 1]
  {
    ps[..i] + [p] + ps[i..]
  }

  function RemoveAt<T>(ps: seq<T>, i: nat): (qs: seq<T>)
    requires i < |ps|
    ensures |qs| == |ps| - 1
    ensures forall j :: 0 <= j < i ==> qs[j] == ps[j]
    ensures forall j :: i < j < |ps| ==> qs[j - 1] == ps[j]
    ensures forall j :: i <= j < |qs| ==> qs[j] == ps[j + 1]
  {
    ps[..i] + ps[i + 1..]
  }

  lemma {:induction false} InsertAscends(ps: seq<Pair>, i: nat, p: Pair)
    requires StrictlyAscending(ps) && i <= |ps|
    requires forall j :: 0 <= j < i ==> Less(ps[j].key, p.key)
    requires forall j :: i <= j < |ps| ==> Less(p.key, ps[j].key)
    ensures StrictlyAscending(InsertAt(ps, i, p))
  {
    var qs := InsertAt(ps, i, p);
    forall j, k | 0 <= j < k < |qs|
      ensures Less(qs[j].key, qs[k].key)
    {
      if j < i {
        assert k > i ==> qs[k] == ps[k - 1];
      } else if i < j {
        assert qs[j] == ps[j - 1] && qs[k] == ps[k - 1];
      } else {
        assert qs[k] == ps[k - 1];
      }
    }
  }

  /** Inserting a key at the place where the greater keys begin. */
  lemma {:induction false} InsertIsUpdate(ps: seq<Pair>, i: nat, p: Pair)
    requires StrictlyAscending(ps) && i <= |ps|
    requires forall j :: 0 <= j < i ==> Less(ps[j].key, p.key)
    requires forall j :: i <= j < |ps| ==> Less(p.key, ps[j].key)
    ensures StrictlyAscending(InsertAt(ps, i, p)) && MapOf(InsertAt(ps, i, p)) == MapOf(ps)[p.key := p.value]
  {
    InsertAscends(ps, i, p);
    var qs, m := InsertAt(ps, i, p), MapOf(ps)[p.key := p.value];
    forall j | 0 <= j < |qs|
      ensures qs[j].key in m && m[qs[j].key] == qs[j].value
    {
      LessIsTotal(qs[j].key, p.key);
      if j < i {
        MapOfAt(ps, j);
      } else if j > i {
        MapOfAt(ps, j - 1);
      }
    }
    forall k | k in m
      ensures HasKey(qs, k)
    {
      if k == p.key {
        assert qs[i].key == k;
      } else {
        MapOfKeys(ps, k);
        var j :| 0 <= j < |ps| && ps[j].key == k;
        assert qs[if j < i then j else j + 1].key == k;
      }
    }
    MapOfIs(qs, m);
  }

  lemma {:induction false} RemoveAscends(ps: seq<Pair>, i: nat)
    requires StrictlyAscending(ps) && i < |ps|
    ensures StrictlyAscending(RemoveAt(ps, i))
  {
    var qs := RemoveAt(ps, i);
    forall j, k | 0 <= j < k < |qs|
      ensures Less(qs[j].key, qs[k].key)
    {
      assert Less(ps[if j < i then j else j + 1].key, ps[if k < i then k else k + 1].key);
    }
  }

  lemma {:induction false} RemoveIsUpdate(ps: seq<Pair>, i: nat)
    requires StrictlyAscending(ps) && i < |ps|
    ensures StrictlyAscending(RemoveAt(ps, i)) && MapOf(RemoveAt(ps, i)) == MapOf(ps) - {ps[i].key}
  {
    RemoveAscends(ps, i);
    var qs, m := RemoveAt(ps, i), MapOf(ps) - {ps[i].key};
    forall j | 0 <= j < |qs|
      ensures qs[j].key in m && m[qs[j].key] == qs[j].value
    {
      var k := if j < i then j else j + 1;
      MapOfAt(ps, k);
      LessIsTotal(ps[k].key, ps[i].key);
    }
    forall k | k in m
      ensures HasKey(qs, k)
    {
      MapOfKeys(ps, k);
      var j :| 0 <= j < |ps| && ps[j].key == k;
      assert qs[if j < i then j else j - 1].key == k;
    }
    MapOfIs(qs, m);
  }

  // Sorting a list of pairs with distinct keys.

  predicate DistinctKeys(ps: seq<Pair>) {
    forall i, j :: 0 <= i < j < |ps| ==> ps[i].key != ps[j].key
  }

  /** The place of a key that is not in the list. */
  method FindPlace(ps: seq<Pair>, key: string) returns (i: nat)
    requires StrictlyAscending(ps) && !HasKey(ps, key)
    ensures i <= |ps|
    ensures forall j :: 0 <= j < i ==> Less(ps[j].key, key)
    ensures forall j :: i <= j < |ps| ==> Less(key, ps[j].key)
  {
    i := 0;
    while i < |ps| && Less(ps[i].key, key)
      invariant i <= |ps| && forall j :: 0 <= j < i ==> Less(ps[j].key, key)
    {
      i := i + 1;
    }
    GreaterFrom(ps, i, key);
  }

  lemma {:induction false} GreaterFrom(ps: seq<Pair>, i: nat, key: string)
    requires StrictlyAscending(ps) && !HasKey(ps, key) && i <= |ps|
    requires i < |ps| ==> !Less(ps[i].key, key)
    ensures forall j :: i <= j < |ps| ==> Less(key, ps[j].key)
  {
    forall j | i <= j < |ps|
      ensures Less(key, ps[j].key)
    {
      LessIsTotal(ps[i].key, key);
      if i < j {
        LessIsTransitive(key, ps[i].key, ps[j].key);
      }
    }
  }

  /** Go's sort.Slice on the keys. */
  method SortPairs(ps: seq<Pair>) returns (r: seq<Pair>)
    requires DistinctKeys(ps)
    ensures StrictlyAscending(r) && MapOf(r) == MapOf(ps)
  {
    r := [];
    for n := 0 to |ps|
      invariant StrictlyAscending(r) && MapOf(r) == MapOf(ps[..n])
    {
      MapOfKeys(r, ps[n].key);
      MapOfKeys(ps[..n], ps[n].key);
      var i := FindPlace(r, ps[n].key);
      InsertIsUpdate(r, i, ps[n]);
      r := InsertAt(r, i, ps[n]);
      assert ps[..n + 1][..n] == ps[..n];
    }
    assert ps[..|ps|] == ps;
  }

  /** Go's iteration over a map, in any order. */
  method PairsOf(m: map<string, string>) returns (ps: seq<Pair>)
    ensures DistinctKeys(ps) && MapOf(ps) == m
  {
    ps := [];
    var left := m.Keys;
    ghost var done: map<string, string> := map[];
    while left != {}
      invariant left <= m.Keys && done.Keys == m.Keys - left
      invariant forall key :: key in done ==> done[key] == m[key]
      invariant DistinctKeys(ps) && MapOf(ps) == done
    {
      var key :| key in left;
      left := left - {key};
      MapOfKeys(ps, key);
      ghost var before := ps;
      ps := ps + [Pair(key, m[key])];
      assert ps[..|before|] == before;
      done := done[key := m[key]];
    }
    assert done == m;
  }

  // Edits of the maps of tags and fields.

  datatype Edit = SetTag(key: string, value: string) | DropTag(key: string) | SetField(key: string, field: FieldValue)

  function EditedFields(m: map<string, FieldValue>, edits: seq<Edit>): map<string, FieldValue> {
    if edits == [] then m
    else
      var before := EditedFields(m, edits[..|edits| - 1]);
      match edits[|edits| - 1]
      case SetField(key, value) => before[key := value]
      case _ => before
  }

  function Edited(m: map<string, string>, edits: seq<Edit>): map<string, string> {
    if edits == [] then m
    else
      var before := Edited(m, edits[..|edits| - 1]);
      match edits[|edits| - 1]
      case SetTag(key, value) => before[key := value]
      case DropTag(key) => before - {key}
      case SetField(_, _) => before
  }

  /** The bytes from which the hash id is computed. */
  function HashText(name: string, ps: seq<Pair>): string {
    if ps == [] then name + "\n"
    else
      var p := ps[|ps| - 1];
      HashText(name, ps[..|ps| - 1]) + p.key + "\n" + p.value + "\n"
  }

  // The text determines the series, as long as no newline is part of it.

  predicate OneLine(line: string) {
    '\n' !in line
  }

  function Joined(lines: seq<string>): string {
    if lines == [] then "" else lines[0] + "\n" + Joined(lines[1..])
  }

  function Lines(name: string, ps: seq<Pair>): (lines: seq<string>)
    ensures |lines| == 1 + 2 * |ps|
  {
    if ps == [] then [name] else Lines(name, ps[..|ps| - 1]) + [ps[|ps| - 1].key, ps[|ps| - 1].value]
  }

  lemma {:induction false} JoinedSnoc(lines: seq<string>, line: string)
    ensures Joined(lines + [line]) == Joined(lines) + line + "\n"
  {
    if lines == [] {
      assert (lines + [line])[1..] == [] && lines + [line] == [line];
    } else {
      JoinedSnoc(lines[1..], line);
      assert (lines + [line])[1..] == lines[1..] + [line];
    }
  }

  lemma {:induction false} HashTextIsJoined(name: string, ps: seq<Pair>)
    ensures HashText(name, ps) == Joined(Lines(name, ps))
  {
    if ps == [] {
      JoinedSnoc([], name);
      assert [] + [name] == [name];
    } else {
      var n := |ps| - 1;
      var before := Lines(name, ps[..n]);
      HashTextIsJoined(name, ps[..n]);
      JoinedSnoc(before, ps[n].key);
      JoinedSnoc(before + [ps[n].key], ps[n].value);
      assert before + [ps[n].key] + [ps[n].value] == before + [ps[n].key, ps[n].value];
    }
  }

  function LineEnd(s: string): nat {
    if s == [] || s[0] == '\n' then 0 else 1 + LineEnd(s[1..])
  }

  lemma {:induction false} LineEndIs(a: string, x: string)
    requires OneLine(a)
    ensures LineEnd(a + "\n" + x) == |a|
  {
    if a != [] {
      LineEndIs(a[1..], x);
      assert (a + "\n" + x)[1..] == a[1..] + "\n" + x;
    }
  }

  lemma {:induction false} SameFirstLine(a: string, b: string, x: string, y: string)
    requires OneLine(a) && OneLine(b) && a + "\n" + x == b + "\n" + y
    ensures a == b && x == y
  {
    var s, t := a + "\n" + x, b + "\n" + y;
    LineEndIs(a, x);
    LineEndIs(b, y);
    assert a == s[..|a|] && b == t[..|b|];
    assert x == s[|a| + 1..] && y == t[|b| + 1..];
  }

  lemma {:induction false} JoinedIsInjective(ls: seq<string>, ms: seq<string>)
    requires (forall i :: 0 <= i < |ls| ==> OneLine(ls[i])) && forall i :: 0 <= i < |ms| ==> OneLine(ms[i])
    requires Joined(ls) == Joined(ms)
    ensures ls == ms
  {
    if ls != [] && ms != [] {
      SameFirstLine(ls[0], ms[0], Joined(ls[1..]), Joined(ms[1..]));
      JoinedIsInjective(ls[1..], ms[1..]);
      assert ls == [ls[0]] + ls[1..] && ms == [ms[0]] + ms[1..];
    }
  }

  lemma {:induction false} LinesAreInjective(m: string, ps: seq<Pair>, n: string, qs: seq<Pair>)
    requires Lines(m, ps) == Lines(n, qs)
    ensures m == n && ps == qs
  {
    if ps != [] {
      var k := |ps| - 1;
      var a, b := Lines(m, ps[..k]), Lines(n, qs[..k]);
      assert Lines(m, ps)[..|a|] == a && Lines(n, qs)[..|b|] == b;
      assert Lines(m, ps)[|a|] == ps[k].key && Lines(m, ps)[|a| + 1] == ps[k].value;
      assert Lines(n, qs)[|b|] == qs[k].key && Lines(n, qs)[|b| + 1] == qs[k].value;
      LinesAreInjective(m, ps[..k], n, qs[..k]);
      assert ps == ps[..k] + [ps[k]] && qs == qs[..k] + [qs[k]];
    }
  }

  predicate NoNewlines(name: string, ps: seq<Pair>) {
    OneLine(name) && forall i :: 0 <= i < |ps| ==> OneLine(ps[i].key) && OneLine(ps[i].value)
  }

  lemma {:induction false} LinesWithoutNewlines(name: string, ps: seq<Pair>)
    requires NoNewlines(name, ps)
    ensures forall i :: 0 <= i < |Lines(name, ps)| ==> OneLine(Lines(name, ps)[i])
  {
    if ps != [] {
      LinesWithoutNewlines(name, ps[..|ps| - 1]);
    }
  }

  /** Without newlines in names, keys and values the hash input tells apart any two series. */
  lemma {:induction false} HashTextIsInjective(m: string, ps: seq<Pair>, n: string, qs: seq<Pair>)
    requires NoNewlines(m, ps) && NoNewlines(n, qs) && HashText(m, ps) == HashText(n, qs)
    ensures m == n && ps == qs
  {
    HashTextIsJoined(m, ps);
    HashTextIsJoined(n, qs);
    LinesWithoutNewlines(m, ps);
    LinesWithoutNewlines(n, qs);
    JoinedIsInjective(Lines(m, ps), Lines(n, qs));
    LinesAreInjective(m, ps, n, qs);
  }

  // Fields.

  datatype FieldValue = Float(f: real) | Int(i: int) | Uint(u: nat) | Text(s: string) | Bool(b: bool)

  /** A field is never changed after it has been made. */
  datatype Field = Field(key: string, value: FieldValue)

  predicate DistinctFields(fs: seq<Field>) {
    forall i, j :: 0 <= i < j < |fs| ==> fs[i].key != fs[j].key
  }

  function FieldMap(fs: seq<Field>): map<string, FieldValue>
    requires DistinctFields(fs)
  {
    map f | f in fs :: f.key := f.value
  }

  lemma {:induction false} FieldMapIs(fs: seq<Field>, m: map<string, FieldValue>)
    requires DistinctFields(fs)
    requires forall i :: 0 <= i < |fs| ==> fs[i].key in m && m[fs[i].key] == fs[i].value
    requires forall key :: key in m ==> exists i :: 0 <= i < |fs| && fs[i].key == key
    ensures FieldMap(fs) == m
  {
    forall key: string
      ensures (key in m <==> key in FieldMap(fs)) && (key in m ==> m[key] == FieldMap(fs)[key])
    {
      if key in m {
        var i :| 0 <= i < |fs| && fs[i].key == key;
        assert fs[i] in fs;
      }
    }
  }

  lemma {:induction false} FieldMapAt(fs: seq<Field>, i: nat)
    requires DistinctFields(fs) && i < |fs|
    ensures fs[i].key in FieldMap(fs) && FieldMap(fs)[fs[i].key] == fs[i].value
  {
    assert fs[i] in fs;
  }

  lemma {:induction false} FieldReplaced(fs: seq<Field>, i: nat, value: FieldValue)
    requires DistinctFields(fs) && i < |fs|
    ensures var r := fs[i := Field(fs[i].key, value)];
            DistinctFields(r) && FieldMap(r) == FieldMap(fs)[fs[i].key := value]
  {
    var r, m := fs[i := Field(fs[i].key, value)], FieldMap(fs)[fs[i].key := value];
    assert forall j :: 0 <= j < |fs| ==> r[j].key == fs[j].key;
    forall j | 0 <= j < |r|
      ensures r[j].key in m && m[r[j].key] == r[j].value
    {
      FieldMapAt(fs, j);
    }
    forall key | key in m
      ensures exists j :: 0 <= j < |r| && r[j].key == key
    {
      var j :| 0 <= j < |fs| && fs[j].key == key;
      assert r[j].key == key;
    }
    FieldMapIs(r, m);
  }

  lemma {:induction false} FieldAppended(fs: seq<Field>, f: Field)
    requires DistinctFields(fs) && forall j :: 0 <= j < |fs| ==> fs[j].key != f.key
    ensures DistinctFields(fs + [f]) && FieldMap(fs + [f]) == FieldMap(fs)[f.key := f.value]
  {
    var r := fs + [f];
    assert r[|fs|] in r;
    assert forall g :: g in r <==> g in fs || g == f;
  }

  // The objects.

  class Tag {
    const key: string
    var value: string

    constructor (key: string, value: string)
      ensures this.key == key && this.value == value
    {
      this.key, this.value := key, value;
    }
  }

  /** The list holds the keys and values of these tags. */
  ghost predicate Shows(ts: seq<Tag>, ps: seq<Pair>)
    reads ts
  {
    |ps| == |ts| && forall i :: 0 <= i < |ts| ==> ps[i] == Pair(ts[i].key, ts[i].value)
  }

  method NewTags(ps: seq<Pair>) returns (ts: seq<Tag>)
    ensures Shows(ts, ps) && forall i :: 0 <= i < |ts| ==> fresh(ts[i])
  {
    ts := [];
    for i := 0 to |ps|
      invariant |ts| == i && forall j :: 0 <= j < i ==> fresh(ts[j])
      invariant forall j :: 0 <= j < i ==> ts[j].key == ps[j].key && ts[j].value == ps[j].value
    {
      var t := new Tag(ps[i].key, ps[i].value);
      ts := ts + [t];
    }
  }

  datatype ValueType = Counter | Gauge | Untyped | Summary | Histogram

  class Metric {
    var name: string
    var time: int
    var tp: ValueType
    var tags: seq<Tag>
    var fields: seq<Field>
    ghost var list: seq<Pair>     // the keys and values of the tags

    ghost predicate Valid()
      reads this, tags
    {
      Shows(tags, list) && StrictlyAscending(list) && DistinctFields(fields)
    }

    ghost function TagMap(): map<string, string>
      reads this
    {
      MapOf(list)
    }

    constructor (name: string, tagMap: map<string, string>, fieldMap: map<string, FieldValue>, time: int, tp: ValueType)
      ensures Valid() && this.name == name && this.time == time && this.tp == tp
      ensures TagMap() == tagMap && FieldMap(fields) == fieldMap
      ensures forall i :: 0 <= i < |tags| ==> fresh(tags[i])
    {
      var ps := PairsOf(tagMap);
      ps := SortPairs(ps);
      var ts := NewTags(ps);
      this.name, this.time, this.tp, this.tags, this.list := name, time, tp, ts, ps;
      this.fields := [];
      new;
      AddFields(fieldMap);
    }

    method AddFields(fieldMap: map<string, FieldValue>)
      requires Valid() && fields == []
      modifies this`fields
      ensures Valid() && FieldMap(fields) == fieldMap
    {
      var left := fieldMap.Keys;
      while left != {}
        invariant Valid() && left <= fieldMap.Keys
        invariant FieldMap(fields) == map key | key in fieldMap && key !in left :: fieldMap[key]
      {
        var key :| key in left;
        left := left - {key};
        AddField(key, fieldMap[key]);
      }
    }

    method AddField(key: string, value: FieldValue)
      requires Valid()
      modifies this`fields
      ensures Valid() && FieldMap(fields) == FieldMap(old(fields))[key := value]
    {
      for i := 0 to |fields|
        invariant fields == old(fields) && forall j :: 0 <= j < i ==> fields[j].key != key
      {
        if fields[i].key == key {
          FieldReplaced(fields, i, value);
          fields := fields[i := Field(key, value)];
          return;
        }
      }
      FieldAppended(fields, Field(key, value));
      fields := fields + [Field(key, value)];
    }

    /** The first tag whose key is not less than `key`. */
    method Place(key: string) returns (i: nat)
      requires Valid()
      ensures i <= |tags|
      ensures forall j :: 0 <= j < i ==> Less(list[j].key, key)
      ensures i < |tags| ==> !Less(list[i].key, key)
    {
      i := 0;
      while i < |tags| && Less(tags[i].key, key)
        invariant i <= |tags|
        invariant forall j :: 0 <= j < i ==> Less(list[j].key, key)
      {
        i := i + 1;
      }
    }

    method AddTag(key: string, value: string)
      requires Valid()
      modifies this`tags, this`list, tags
      ensures Valid() && TagMap() == old(TagMap())[key := value]
      ensures forall i :: 0 <= i < |tags| ==> tags[i] in old(tags) || fresh(tags[i])
    {
      ghost var ps := list;
      var i := Place(key);
      if i < |tags| && tags[i].key == key {
        ReplaceIsUpdate(ps, i, value);
        SetValue(i, value);
      } else {
        PlaceIsUpdate(ps, i, Pair(key, value));
        InsertTag(i, key, value);
      }
    }

    /** Change a tag in place. */
    method SetValue(i: nat, value: string)
      requires Valid() && i < |tags|
      modifies this`list, tags
      ensures Shows(tags, list) && list == old(list)[i := Pair(old(list)[i].key, value)]
    {
      DistinctTags(tags, list);
      list := list[i := Pair(tags[i].key, value)];
      tags[i].value := value;
    }

    /** Make room for a new tag. */
    method InsertTag(i: nat, key: string, value: string)
      requires Valid() && i <= |tags|
      modifies this`tags, this`list
      ensures Shows(tags, list) && list == InsertAt(old(list), i, Pair(key, value))
      ensures forall j :: 0 <= j < |tags| ==> tags[j] in old(tags) || fresh(tags[j])
    {
      var t := new Tag(key, value);
      tags, list := InsertAt(tags, i, t), InsertAt(list, i, Pair(key, value));
    }

    method GetTag(key: string) returns (value: string, ok: bool)
      requires Valid()
      ensures ok <==> key in TagMap()
      ensures value == if ok then TagMap()[key] else ""
    {
      MapOfKeys(list, key);
      for i := 0 to |tags|
        invariant forall j :: 0 <= j < i ==> list[j].key != key
      {
        if tags[i].key == key {
          MapOfAt(list, i);
          return tags[i].value, true;
        }
      }
      return "", false;
    }

    method RemoveTag(key: string)
      requires Valid()
      modifies this`tags, this`list
      ensures Valid() && TagMap() == old(TagMap()) - {key}
      ensures forall i :: 0 <= i < |tags| ==> tags[i] in old(tags)
    {
      ghost var ps := list;
      var i := 0;
      while i < |tags| && tags[i].key != key
        invariant i <= |tags| && forall j :: 0 <= j < i ==> ps[j].key != key
      {
        i := i + 1;
      }
      if i < |tags| {
        RemoveIsUpdate(ps, i);
        tags, list := RemoveAt(tags, i), RemoveAt(ps, i);
      } else {
        MapOfKeys(ps, key);
      }
    }

    /** Has the same name, time, type, tags and fields as the other metric has. */
    ghost predicate Like(list: seq<Pair>, other: Metric)
      reads this, other
    {
      this.list == list && name == other.name && time == other.time && tp == other.tp && fields == other.fields
    }

    /** A deep copy. */
    method Copy() returns (c: Metric)
      requires Valid()
      ensures fresh(c) && c.Valid() && c.Like(list, this)
      ensures forall i :: 0 <= i < |c.tags| ==> fresh(c.tags[i])
    {
      c := FromMetric(this);
    }

    /** What the hash id is computed from. */
    method HashInput() returns (text: string)
      requires Valid()
      ensures text == HashText(name, list)
    {
      text := name + "\n";
      for i := 0 to |tags|
        invariant text == HashText(name, list[..i])
      {
        text := text + tags[i].key + "\n" + tags[i].value + "\n";
        assert list[..i + 1][..i] == list[..i];
      }
      assert list[..|list|] == list;
    }
  }

  /** A deep copy without tracking information. */
  method FromMetric(other: Metric) returns (m: Metric)
    requires other.Valid()
    ensures fresh(m) && m.Valid() && m.Like(other.list, other)
    ensures forall i :: 0 <= i < |m.tags| ==> fresh(m.tags[i])
  {
    var ts := CopyTags(other.tags, other.list);
    var fs := [];
    for i := 0 to |other.fields|
      invariant fs == other.fields[..i]
    {
      fs := fs + [Field(other.fields[i].key, other.fields[i].value)];
    }
    m := new Metric(other.name, map[], map[], other.time, other.tp);
    m.tags, m.list, m.fields := ts, other.list, fs;
  }

  method CopyTags(tags: seq<Tag>, ghost list: seq<Pair>) returns (ts: seq<Tag>)
    requires Shows(tags, list)
    ensures Shows(ts, list) && forall i :: 0 <= i < |ts| ==> fresh(ts[i])
  {
    ts := [];
    for i := 0 to |tags|
      invariant |ts| == i && forall j :: 0 <= j < i ==> fresh(ts[j])
      invariant forall j :: 0 <= j < i ==> ts[j].key == list[j].key && ts[j].value == list[j].value
    {
      var t := new Tag(tags[i].key, tags[i].value);
      ts := ts + [t];
    }
  }

  lemma {:induction false} DistinctTags(ts: seq<Tag>, ps: seq<Pair>)
    requires Shows(ts, ps) && StrictlyAscending(ps)
    ensures forall i, j :: 0 <= i < j < |ts| ==> ts[i] != ts[j]
  {
    forall i, j | 0 <= i < j < |ts|
      ensures ts[i] != ts[j]
    {
      assert Less(ps[i].key, ps[j].key);
      LessIsTotal(ts[i].key, ts[j].key);
    }
  }

  lemma {:induction false} PlaceIsUpdate(ps: seq<Pair>, i: nat, p: Pair)
    requires StrictlyAscending(ps) && i <= |ps| && (i < |ps| ==> !Less(ps[i].key, p.key) && ps[i].key != p.key)
    requires forall j :: 0 <= j < i ==> Less(ps[j].key, p.key)
    ensures StrictlyAscending(InsertAt(ps, i, p)) && MapOf(InsertAt(ps, i, p)) == MapOf(ps)[p.key := p.value]
  {
    forall j | i <= j < |ps|
      ensures Less(p.key, ps[j].key)
    {
      LessIsTotal(ps[i].key, p.key);
      if i < j {
        LessIsTransitive(p.key, ps[i].key, ps[j].key);
      }
    }
    InsertIsUpdate(ps, i, p);
  }

  /** Metrics with the same name and the same tags have the same hash input and so the same hash id, however
      the tags came about. */
  lemma {:induction false} SameSeriesSameHash(a: Metric, b: Metric)
    requires a.Valid() && b.Valid() && a.name == b.name && a.TagMap() == b.TagMap()
    ensures a.list == b.list && HashText(a.name, a.list) == HashText(b.name, b.list)
  {
    ListIsCanonical(a.list, b.list);
  }

  /** Any edits of a metric are those of its maps of tags and fields. */
  method EditMetric(m: Metric, edits: seq<Edit>)
    requires m.Valid()
    modifies m`tags, m`list, m`fields, m.tags
    ensures m.Valid() && m.TagMap() == Edited(old(m.TagMap()), edits)
    ensures FieldMap(m.fields) == EditedFields(FieldMap(old(m.fields)), edits)
  {
    for i := 0 to |edits|
      invariant m.Valid() && m.TagMap() == Edited(old(m.TagMap()), edits[..i])
      invariant FieldMap(m.fields) == EditedFields(FieldMap(old(m.fields)), edits[..i])
      invariant forall k :: 0 <= k < |m.tags| ==> m.tags[k] in old(m.tags) || fresh(m.tags[k])
    {
      assert edits[..i + 1][..i] == edits[..i];
      match edits[i]
      case SetTag(key, value) => m.AddTag(key, value);
      case DropTag(key) => m.RemoveTag(key);
      case SetField(key, value) => m.AddField(key, value);
    }
    assert edits[..|edits|] == edits;
  }

  /** Edits of the original do not show in a copy made before, whichever way it was made. */
  method CopyThenEdit(m: Metric, plain: bool, edits: seq<Edit>) returns (c: Metric)
    requires m.Valid()
    modifies m`tags, m`list, m`fields, m.tags
    ensures m.Valid() && m.TagMap() == Edited(old(m.TagMap()), edits)
    ensures FieldMap(m.fields) == EditedFields(FieldMap(old(m.fields)), edits)
    ensures c.Valid() && c.list == old(m.list) && c.fields == old(m.fields)
    ensures c.name == old(m.name) && c.time == old(m.time) && c.tp == old(m.tp)
  {
    if plain {
      c := FromMetric(m);
    } else {
      c := m.Copy();
    }
    EditMetric(m, edits);
  }
}
