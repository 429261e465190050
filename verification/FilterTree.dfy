/** The sorted tree of template filters (internal/templating/node.go) and the matcher on top of it
    (internal/templating/matcher.go). */
module FilterTree {
  import opened Strings

  datatype Template = Template(id: nat, separator: string)

  /** A pointer to a template. */
  datatype Maybe = Nil | Found(t: Template)

  datatype Node = Node(value: string, children: seq<Node>, template: Maybe)

  /** The order of siblings: by string comparison, but "*" last. */
  predicate Before(x: string, y: string) {
    if x == "*" && y != "*" then false
    else if x != "*" && y == "*" then true
    else Less(x, y)
  }

  lemma {:induction false} BeforeIsTotal(x: string, y: string)
    ensures (if Before(x, y) then 1 else 0) + (if Before(y, x) then 1 else 0) + (if x == y then 1 else 0) == 1
  {
    LessIsTotal(x, y);
  }

  lemma {:induction false} BeforeIsTransitive(x: string, y: string, z: string)
    requires Before(x, y) && Before(y, z)
    ensures Before(x, z)
  {
    if x != "*" && z != "*" {
      LessIsTransitive(x, y, z);
    } else {
      LessIsTotal(x, y);
      LessIsTotal(y, z);
    }
  }

  ghost predicate Sorted(nodes: seq<Node>) {
    forall i, j :: 0 <= i < j < |nodes| ==> Before(nodes[i].value, nodes[j].value)
  }

  predicate HasValue(nodes: seq<Node>, v: string) {
    exists i :: 0 <= i < |nodes| && nodes[i].value == v
  }

  // Insertion.

  /** The position of the first child with value `v`, or the number of children. */
  function IndexOf(nodes: seq<Node>, v: string): (i: nat)
    ensures i <= |nodes| && (i < |nodes| ==> nodes[i].value == v)
    ensures forall k :: 0 <= k < i ==> nodes[k].value != v
  {
    if nodes == [] then 0
    else if nodes[0].value == v then 0
    else 1 + IndexOf(nodes[1..], v)
  }

  /** Appending a node to sorted nodes and sorting them again. */
  function Place(nodes: seq<Node>, n: Node): seq<Node> {
    if nodes == [] then [n]
    else
      var last := |nodes| - 1;
      if Before(nodes[last].value, n.value) then nodes + [n] else Place(nodes[..last], n) + [nodes[last]]
  }

  function Insert(n: Node, values: seq<string>, t: Template): (r: Node)
    ensures r.value == n.value
    decreases |values|
  {
    if values == [] then n.(template := Found(t))
    else
      var i := IndexOf(n.children, values[0]);
      if i < |n.children| then
        n.(children := n.children[i := Insert(n.children[i], values[1..], t)])
      else
        n.(children := Place(n.children, Insert(Node(values[0], [], Nil), values[1..], t)))
  }

  // Search.

  /** The binary search of Go's sort.Search for the first child, among `lo..hi`, not less than `key`. */
  function LowerBound(nodes: seq<Node>, key: string, lo: nat, hi: nat): (i: nat)
    requires lo <= hi <= |nodes|
    ensures lo <= i <= hi
    decreases hi - lo
  {
    if lo == hi then lo
    else
      var h := (lo + hi) / 2;
      if Less(nodes[h].value, key) then LowerBound(nodes, key, h + 1, hi) else LowerBound(nodes, key, lo, h)
  }

  /** How many children the binary search looks at: all but a wildcard. */
  function Length(nodes: seq<Node>): nat
    requires nodes != []
  {
    if nodes[|nodes| - 1].value == "*" then |nodes| - 1 else |nodes|
  }

  function Search(n: Node, line: seq<string>): Maybe
    decreases n
  {
    if line == [] || n.children == [] then n.template
    else
      var hasWildcard := n.children[|n.children| - 1].value == "*";
      var length := Length(n.children);
      var i := LowerBound(n.children, line[0], 0, length);
      var exact := if i < length && n.children[i].value == line[0] then Search(n.children[i], line[1..]) else Nil;
      if exact.Found? then exact
      else if hasWildcard then Search(n.children[length], line[1..])
      else n.template
  }

  // The specification: a map from filters to templates.

  type Filters = map<seq<string>, Template>

  function Get(m: Filters, path: seq<string>): Maybe {
    if path in m then Found(m[path]) else Nil
  }

  /** Some filter begins with `path`. */
  ghost predicate Inside(m: Filters, path: seq<string>) {
    exists k :: k in m && path <= k
  }

  /** Some filter goes on after `path`. */
  ghost predicate Deeper(m: Filters, path: seq<string>) {
    exists v: string :: Inside(m, path + [v])
  }

  /** Prefer filters that go on with the next part of the line itself, then those that go on with "*";
      only if none goes on with either take the filter that ends here. */
  ghost function Lookup(m: Filters, path: seq<string>, line: seq<string>): Maybe
    decreases |line|
  {
    if line == [] || !Deeper(m, path) then Get(m, path)
    else
      var exact :=
        if line[0] != "*" && Inside(m, path + [line[0]]) then Lookup(m, path + [line[0]], line[1..]) else Nil;
      if exact.Found? then exact
      else if Inside(m, path + ["*"]) then Lookup(m, path + ["*"], line[1..])
      else Get(m, path)
  }

  /** The subtree `n` at `path` represents the filters that begin with `path`. */
  ghost predicate Represents(n: Node, m: Filters, path: seq<string>)
    decreases n
  {
    && n.template == Get(m, path)
    && Sorted(n.children)
    && (forall i :: 0 <= i < |n.children| ==>
          Inside(m, path + [n.children[i].value]) && Represents(n.children[i], m, path + [n.children[i].value]))
    && (forall v: string :: Inside(m, path + [v]) ==> HasValue(n.children, v))
  }

  // Insertion preserves the representation.

  /** Placing a node adds exactly that node. */
  lemma {:induction false} PlacePermutes(nodes: seq<Node>, n: Node)
    ensures multiset(Place(nodes, n)) == multiset(nodes + [n])
  {
    if nodes != [] {
      var last := |nodes| - 1;
      PlacePermutes(nodes[..last], n);
      assert nodes == nodes[..last] + [nodes[last]];
    }
  }

  lemma {:induction false} PlaceMembers(nodes: seq<Node>, n: Node, x: Node)
    ensures x in Place(nodes, n) <==> x in nodes || x == n
  {
    PlacePermutes(nodes, n);
    assert x in Place(nodes, n) <==> x in multiset(Place(nodes, n));
    assert x in nodes + [n] <==> x in multiset(nodes + [n]);
  }

  /** Placing a new value keeps the nodes sorted. */
  lemma {:induction false} PlaceSorts(nodes: seq<Node>, n: Node)
    requires Sorted(nodes) && !HasValue(nodes, n.value)
    ensures Sorted(Place(nodes, n))
  {
    if nodes != [] {
      var last := |nodes| - 1;
      BeforeIsTotal(nodes[last].value, n.value);
      if Before(nodes[last].value, n.value) {
        forall i | 0 <= i < last
          ensures Before(nodes[i].value, n.value)
        {
          BeforeIsTransitive(nodes[i].value, nodes[last].value, n.value);
        }
      } else {
        PlaceSorts(nodes[..last], n);
        var placed := Place(nodes[..last], n);
        forall i | 0 <= i < |placed|
          ensures Before(placed[i].value, nodes[last].value)
        {
          PlaceMembers(nodes[..last], n, placed[i]);
        }
      }
    }
  }

  /** Only the filters that begin with `path` matter for the subtree at `path`. */
  lemma {:induction false} RepresentsFrame(n: Node, m: Filters, m': Filters, path: seq<string>)
    requires Represents(n, m, path)
    requires forall k :: path <= k ==> Get(m', k) == Get(m, k)
    ensures Represents(n, m', path)
    decreases n
  {
    forall p: seq<string> | path <= p
      ensures Inside(m', p) <==> Inside(m, p)
    {
      if Inside(m, p) {
        InsideFrame(m, m', path, p);
      }
      if Inside(m', p) {
        InsideFrame(m', m, path, p);
      }
    }
    forall i | 0 <= i < |n.children|
      ensures Represents(n.children[i], m', path + [n.children[i].value])
    {
      RepresentsFrame(n.children[i], m, m', path + [n.children[i].value]);
    }
  }

  lemma {:induction false} InsideFrame(m: Filters, m': Filters, path: seq<string>, p: seq<string>)
    requires path <= p && Inside(m, p) && forall k :: path <= k ==> Get(m', k) == Get(m, k)
    ensures Inside(m', p)
  {
    var k :| k in m && p <= k;
    assert path <= k;
    assert Get(m', k) == Get(m, k);
    assert k in m';
  }

  lemma {:induction false} InsideAfter(m: Filters, path: seq<string>, values: seq<string>, t: Template, v: string)
    requires values != []
    ensures Inside(m[path + values := t], path + [v]) <==> Inside(m, path + [v]) || v == values[0]
  {
    var m' := m[path + values := t];
    if v == values[0] {
      assert path + values in m' && path + [v] <= path + values;
    }
    if Inside(m, path + [v]) {
      var k :| k in m && path + [v] <= k;
      assert k in m';
    }
    if Inside(m', path + [v]) && v != values[0] {
      var k :| k in m' && path + [v] <= k;
      assert k[|path|] == v && (path + values)[|path|] == values[0];
      assert k in m;
    }
  }

  lemma {:induction false} OtherBranch(m: Filters, path: seq<string>, values: seq<string>, t: Template, v: string,
                                       k: seq<string>)
    requires values != [] && v != values[0] && path + [v] <= k
    ensures Get(m[path + values := t], k) == Get(m, k)
  {
    assert k[|path|] == v && (path + values)[|path|] == values[0];
  }

  /** A sibling of the branch that the new filter takes is not affected. */
  lemma {:induction false} SiblingStays(c: Node, m: Filters, path: seq<string>, values: seq<string>, t: Template)
    requires Represents(c, m, path + [c.value]) && values != [] && c.value != values[0]
    ensures Represents(c, m[path + values := t], path + [c.value])
  {
    forall k | path + [c.value] <= k
      ensures Get(m[path + values := t], k) == Get(m, k)
    {
      OtherBranch(m, path, values, t, c.value, k);
    }
    RepresentsFrame(c, m, m[path + values := t], path + [c.value]);
  }

  /** The branch that the new filter takes: an existing child or a new one. */
  ghost function Branch(n: Node, v: string): Node {
    var i := IndexOf(n.children, v);
    if i < |n.children| then n.children[i] else Node(v, [], Nil)
  }

  lemma {:induction false} BranchRepresents(n: Node, m: Filters, path: seq<string>, v: string)
    requires Represents(n, m, path)
    ensures Represents(Branch(n, v), m, path + [v]) && Branch(n, v).value == v
  {
    if IndexOf(n.children, v) == |n.children| {
      assert !HasValue(n.children, v);
      assert !Inside(m, path + [v]);
      assert path + [v] !in m;
      forall w: string
        ensures !Inside(m, path + [v] + [w])
      {
        assert forall k :: k in m && path + [v] + [w] <= k ==> path + [v] <= k;
      }
    }
  }

  /** The children after an insertion are the old ones with the branch exchanged or added. */
  lemma {:induction false} ChildrenAfter(n: Node, values: seq<string>, t: Template, x: Node)
    requires values != [] && x in Insert(n, values, t).children
    ensures || x == Insert(Branch(n, values[0]), values[1..], t)
            || (x in n.children && (Sorted(n.children) ==> x.value != values[0]))
  {
    var i := IndexOf(n.children, values[0]);
    if i == |n.children| {
      PlaceMembers(n.children, Insert(Node(values[0], [], Nil), values[1..], t), x);
    } else {
      var k :| 0 <= k < |n.children| && x == Insert(n, values, t).children[k];
      if k != i && Sorted(n.children) {
        BeforeIsTotal(n.children[i].value, n.children[k].value);
      }
    }
  }

  lemma {:induction false} ChildrenSorted(n: Node, values: seq<string>, t: Template)
    requires values != [] && Sorted(n.children)
    ensures Sorted(Insert(n, values, t).children)
  {
    var i := IndexOf(n.children, values[0]);
    if i == |n.children| {
      PlaceSorts(n.children, Insert(Node(values[0], [], Nil), values[1..], t));
    }
  }

  lemma {:induction false} ChildrenValues(n: Node, values: seq<string>, t: Template, v: string)
    requires values != [] && (HasValue(n.children, v) || v == values[0])
    ensures HasValue(Insert(n, values, t).children, v)
  {
    var r := Insert(n, values, t);
    var i := IndexOf(n.children, values[0]);
    if i < |n.children| {
      if v == values[0] {
        assert r.children[i].value == v;
      } else {
        var k :| 0 <= k < |n.children| && n.children[k].value == v;
        assert r.children[k].value == v;
      }
    } else {
      var c := Insert(Node(values[0], [], Nil), values[1..], t);
      var x := if v == values[0] then c else n.children[IndexOf(n.children, v)];
      PlaceMembers(n.children, c, x);
      var k :| 0 <= k < |r.children| && r.children[k] == x;
    }
  }

  lemma {:induction false} InsertHere(n: Node, m: Filters, path: seq<string>, t: Template)
    requires Represents(n, m, path)
    ensures Represents(Insert(n, [], t), m[path := t], path)
  {
    var m' := m[path := t];
    forall v: string
      ensures Inside(m', path + [v]) <==> Inside(m, path + [v])
    {
      assert forall k :: path + [v] <= k ==> (k in m' <==> k in m);
    }
    forall i | 0 <= i < |n.children|
      ensures Represents(n.children[i], m', path + [n.children[i].value])
    {
      assert forall k :: path + [n.children[i].value] <= k ==> k != path && Get(m', k) == Get(m, k);
      RepresentsFrame(n.children[i], m, m', path + [n.children[i].value]);
    }
  }

  lemma {:induction false} ChildRepresentsAfter(n: Node, m: Filters, path: seq<string>, values: seq<string>,
                                                t: Template, x: Node)
    requires Represents(n, m, path) && values != [] && x in Insert(n, values, t).children
    requires var b := Insert(Branch(n, values[0]), values[1..], t);
             b.value == values[0] && Represents(b, m[path + values := t], path + [values[0]])
    ensures Inside(m[path + values := t], path + [x.value])
            && Represents(x, m[path + values := t], path + [x.value])
  {
    ChildrenAfter(n, values, t, x);
    InsideAfter(m, path, values, t, x.value);
    if x != Insert(Branch(n, values[0]), values[1..], t) {
      SiblingStays(x, m, path, values, t);
    }
  }

  /** Inserting a filter updates the map at that filter. */
  lemma {:induction false} InsertRepresents(n: Node, m: Filters, path: seq<string>, values: seq<string>, t: Template)
    requires Represents(n, m, path)
    ensures Represents(Insert(n, values, t), m[path + values := t], path)
    decreases |values|
  {
    if values == [] {
      assert path + values == path;
      InsertHere(n, m, path, t);
    } else {
      var r, m', v := Insert(n, values, t), m[path + values := t], values[0];
      BranchRepresents(n, m, path, v);
      InsertRepresents(Branch(n, v), m, path + [v], values[1..], t);
      assert path + [v] + values[1..] == path + values;
      ChildrenSorted(n, values, t);
      forall i | 0 <= i < |r.children|
        ensures Inside(m', path + [r.children[i].value]) && Represents(r.children[i], m', path + [r.children[i].value])
      {
        ChildRepresentsAfter(n, m, path, values, t, r.children[i]);
      }
      forall w: string | Inside(m', path + [w])
        ensures HasValue(r.children, w)
      {
        InsideAfter(m, path, values, t, w);
        ChildrenValues(n, values, t, w);
      }
      assert path != path + values;
    }
  }

  // Search refines the lookup in the map.

  /** Binary search finds a value among sorted nodes if it is there. */
  lemma {:induction false} LowerBoundFinds(nodes: seq<Node>, key: string, lo: nat, hi: nat, k: nat)
    requires lo <= k < hi <= |nodes| && Sorted(nodes) && nodes[k].value == key
    requires forall i :: lo <= i < hi ==> nodes[i].value != "*"
    ensures LowerBound(nodes, key, lo, hi) == k
    decreases hi - lo
  {
    var h := (lo + hi) / 2;
    LessIsTotal(nodes[h].value, key);
    if h < k {
      assert Before(nodes[h].value, nodes[k].value);
      LowerBoundFinds(nodes, key, h + 1, hi, k);
    } else if h > k {
      assert Before(nodes[k].value, nodes[h].value);
      LowerBoundFinds(nodes, key, lo, h, k);
    } else {
      LowerBoundAtEnd(nodes, key, lo, h);
    }
  }

  /** If all values up to `hi` are less than the key, the search ends at `hi`. */
  lemma {:induction false} LowerBoundAtEnd(nodes: seq<Node>, key: string, lo: nat, hi: nat)
    requires lo <= hi < |nodes| && Sorted(nodes) && nodes[hi].value == key
    requires forall i :: lo <= i <= hi ==> nodes[i].value != "*"
    ensures LowerBound(nodes, key, lo, hi) == hi
    decreases hi - lo
  {
    if lo < hi {
      var h := (lo + hi) / 2;
      assert Before(nodes[h].value, nodes[hi].value);
      LowerBoundAtEnd(nodes, key, h + 1, hi);
    }
  }

  /** A "*" among sorted nodes is the last one. */
  lemma {:induction false} WildcardIsLast(nodes: seq<Node>, i: nat)
    requires Sorted(nodes) && i < |nodes| && nodes[i].value == "*"
    ensures i == |nodes| - 1
  {
    if i < |nodes| - 1 {
      assert Before(nodes[i].value, nodes[|nodes| - 1].value);
      LessIsTotal("*", "*");
    }
  }

  /** Leaving out the wildcard, binary search finds exactly the values that are there. */
  lemma {:induction false} FindsExactly(nodes: seq<Node>, key: string)
    requires Sorted(nodes) && nodes != []
    ensures var i := LowerBound(nodes, key, 0, Length(nodes));
            (i < Length(nodes) && nodes[i].value == key) <==> (key != "*" && HasValue(nodes, key))
  {
    forall i | 0 <= i < Length(nodes)
      ensures nodes[i].value != "*"
    {
      if nodes[i].value == "*" {
        WildcardIsLast(nodes, i);
      }
    }
    if key != "*" && HasValue(nodes, key) {
      var k :| 0 <= k < |nodes| && nodes[k].value == key;
      LowerBoundFinds(nodes, key, 0, Length(nodes), k);
    }
  }

  lemma {:induction false} WildcardFound(nodes: seq<Node>)
    requires Sorted(nodes) && nodes != []
    ensures nodes[|nodes| - 1].value == "*" <==> HasValue(nodes, "*")
  {
    if k :| 0 <= k < |nodes| && nodes[k].value == "*" {
      WildcardIsLast(nodes, k);
    }
  }

  /** The children are the values with which filters go on. */
  lemma {:induction false} ChildrenAreInside(n: Node, m: Filters, path: seq<string>)
    requires Represents(n, m, path)
    ensures Sorted(n.children) && n.template == Get(m, path)
    ensures forall v: string :: HasValue(n.children, v) <==> Inside(m, path + [v])
    ensures n.children != [] <==> Deeper(m, path)
  {
    if n.children != [] {
      assert Inside(m, path + [n.children[0].value]);
    } else {
      assert forall v: string :: !HasValue(n.children, v);
    }
  }

  lemma {:induction false} ChildRepresents(n: Node, m: Filters, path: seq<string>, i: nat)
    requires Represents(n, m, path) && i < |n.children|
    ensures Represents(n.children[i], m, path + [n.children[i].value])
  {
  }

  /** One level of the search, by which values the children have. */
  lemma {:induction false} SearchStep(n: Node, line: seq<string>)
    requires Sorted(n.children) && n.children != [] && line != []
    ensures var i, length := LowerBound(n.children, line[0], 0, Length(n.children)), Length(n.children);
            var goesOn := line[0] != "*" && HasValue(n.children, line[0]);
            var wild := HasValue(n.children, "*");
            && (goesOn ==> i < length && n.children[i].value == line[0])
            && (wild ==> length < |n.children| && n.children[length].value == "*")
            && Search(n, line) == if goesOn && Search(n.children[i], line[1..]).Found?
                                  then Search(n.children[i], line[1..])
                                  else if wild then Search(n.children[length], line[1..])
                                  else n.template
  {
    FindsExactly(n.children, line[0]);
    WildcardFound(n.children);
  }

  /** Searching the tree, with its binary search and its wildcard child, is looking up the map. */
  lemma {:induction false} SearchIsLookup(n: Node, m: Filters, path: seq<string>, line: seq<string>)
    requires Represents(n, m, path)
    ensures Search(n, line) == Lookup(m, path, line)
    decreases |line|
  {
    ChildrenAreInside(n, m, path);
    if line != [] && Deeper(m, path) {
      SearchStep(n, line);
      assert HasValue(n.children, line[0]) <==> Inside(m, path + [line[0]]);
      assert HasValue(n.children, "*") <==> Inside(m, path + ["*"]);
      var i, length := LowerBound(n.children, line[0], 0, Length(n.children)), Length(n.children);
      if line[0] != "*" && Inside(m, path + [line[0]]) {
        ChildRepresents(n, m, path, i);
        SearchIsLookup(n.children[i], m, path + [line[0]], line[1..]);
      }
      if Inside(m, path + ["*"]) {
        ChildRepresents(n, m, path, length);
        SearchIsLookup(n.children[length], m, path + ["*"], line[1..]);
      }
    }
  }

  // Whole trees.

  datatype Entry = Entry(filter: seq<string>, template: Template)

  function Build(entries: seq<Entry>): Node {
    if entries == [] then Node("", [], Nil)
    else
      var e := entries[|entries| - 1];
      Insert(Build(entries[..|entries| - 1]), e.filter, e.template)
  }

  /** The latest template of every filter. */
  function FiltersOf(entries: seq<Entry>): Filters {
    if entries == [] then map[]
    else FiltersOf(entries[..|entries| - 1])[entries[|entries| - 1].filter := entries[|entries| - 1].template]
  }

  lemma {:induction false} BuildRepresents(entries: seq<Entry>)
    ensures Represents(Build(entries), FiltersOf(entries), []) && Build(entries).value == ""
  {
    if entries == [] {
      assert forall v: string :: !Inside(map[], [] + [v]);
    } else {
      var init, e := entries[..|entries| - 1], entries[|entries| - 1];
      BuildRepresents(init);
      InsertRepresents(Build(init), FiltersOf(init), [], e.filter, e.template);
      assert [] + e.filter == e.filter;
    }
  }

  /** After any insertions, a search returns what the map of the latest templates says. */
  lemma {:induction false} TreeRefinesMap(entries: seq<Entry>, line: seq<string>)
    ensures Search(Build(entries), line) == Lookup(FiltersOf(entries), [], line)
  {
    BuildRepresents(entries);
    SearchIsLookup(Build(entries), FiltersOf(entries), [], line);
  }

  /** The parts of a filter match the first parts of a line. */
  predicate Matches(filter: seq<string>, line: seq<string>) {
    |filter| <= |line| && forall i :: 0 <= i < |filter| ==> filter[i] == line[i] || filter[i] == "*"
  }

  ghost predicate FoundBy(m: Filters, path: seq<string>, line: seq<string>, t: Template) {
    exists rest: seq<string> :: path + rest in m && m[path + rest] == t && Matches(rest, line)
  }

  lemma {:induction false} FoundFurther(m: Filters, path: seq<string>, line: seq<string>, v: string, t: Template)
    requires line != [] && (v == line[0] || v == "*") && FoundBy(m, path + [v], line[1..], t)
    ensures FoundBy(m, path, line, t)
  {
    var rest: seq<string> :| path + [v] + rest in m && m[path + [v] + rest] == t && Matches(rest, line[1..]);
    assert path + ([v] + rest) == path + [v] + rest;
    assert Matches([v] + rest, line);
  }

  /** A template that is found belongs to a filter that matches a prefix of the line. */
  lemma {:induction false} FoundMatches(m: Filters, path: seq<string>, line: seq<string>)
    ensures Lookup(m, path, line).Found? ==> FoundBy(m, path, line, Lookup(m, path, line).t)
    decreases |line|
  {
    var r := Lookup(m, path, line);
    if r.Found? {
      if r == Get(m, path) {
        assert path + [] == path;
        assert Matches([], line);
      } else {
        FoundMatches(m, path + [line[0]], line[1..]);
        FoundMatches(m, path + ["*"], line[1..]);
        var v := if r == Lookup(m, path + ["*"], line[1..]) then "*" else line[0];
        FoundFurther(m, path, line, v, r.t);
      }
    }
  }

  // The tree does not depend on the order of insertion.

  /** The tree is determined by the filters it represents. */
  lemma {:induction false} TreeIsCanonical(n: Node, n': Node, m: Filters, path: seq<string>)
    requires Represents(n, m, path) && Represents(n', m, path) && n.value == n'.value
    ensures n == n'
    decreases n
  {
    SameValues(n, n', m, path);
    forall i | 0 <= i < |n.children|
      ensures n.children[i] == n'.children[i]
    {
      TreeIsCanonical(n.children[i], n'.children[i], m, path + [n.children[i].value]);
    }
  }

  lemma {:induction false} SameValues(n: Node, n': Node, m: Filters, path: seq<string>)
    requires Represents(n, m, path) && Represents(n', m, path)
    ensures |n.children| == |n'.children|
    ensures forall i :: 0 <= i < |n.children| ==> n.children[i].value == n'.children[i].value
  {
    ChildrenAreInside(n, m, path);
    ChildrenAreInside(n', m, path);
    SortedIsUnique(n.children, n'.children);
  }

  /** Sorted nodes with the same values have them in the same places. */
  lemma {:induction false} SortedIsUnique(a: seq<Node>, b: seq<Node>)
    requires Sorted(a) && Sorted(b) && forall v: string :: HasValue(a, v) <==> HasValue(b, v)
    ensures |a| == |b| && forall i :: 0 <= i < |a| ==> a[i].value == b[i].value
    decreases |a|
  {
    if a == [] || b == [] {
      if a != [] {
        assert HasValue(a, a[0].value);
      } else if b != [] {
        assert HasValue(b, b[0].value);
      }
    } else {
      var x, y := |a| - 1, |b| - 1;
      LastIsGreatest(a, b);
      LastIsGreatest(b, a);
      BeforeIsTotal(a[x].value, b[y].value);
      assert a[x].value == b[y].value;
      forall v: string
        ensures HasValue(a[..x], v) <==> HasValue(b[..y], v)
      {
        InitValues(a, v);
        InitValues(b, v);
      }
      SortedIsUnique(a[..x], b[..y]);
    }
  }

  lemma {:induction false} LastIsGreatest(a: seq<Node>, b: seq<Node>)
    requires a != [] && b != [] && Sorted(b) && forall v: string :: HasValue(a, v) <==> HasValue(b, v)
    ensures !Before(b[|b| - 1].value, a[|a| - 1].value)
  {
    var v := a[|a| - 1].value;
    assert HasValue(a, v);
    var k :| 0 <= k < |b| && b[k].value == v;
    BeforeIsTotal(b[k].value, b[|b| - 1].value);
  }

  lemma {:induction false} InitValues(a: seq<Node>, v: string)
    requires a != [] && Sorted(a)
    ensures HasValue(a[..|a| - 1], v) <==> HasValue(a, v) && v != a[|a| - 1].value
  {
    var x := |a| - 1;
    if HasValue(a, v) && v != a[x].value {
      var k :| 0 <= k < |a| && a[k].value == v;
      assert a[..x][k].value == v;
    }
    if k :| 0 <= k < x && a[..x][k].value == v {
      assert a[k].value == v;
      BeforeIsTotal(a[k].value, a[x].value);
    }
  }

  lemma {:induction false} EntryInFilters(entries: seq<Entry>, i: nat)
    requires i < |entries| && forall j, k :: 0 <= j < k < |entries| ==> entries[j].filter != entries[k].filter
    ensures Get(FiltersOf(entries), entries[i].filter) == Found(entries[i].template)
  {
    if i < |entries| - 1 {
      EntryInFilters(entries[..|entries| - 1], i);
    }
  }

  lemma {:induction false} FilterHasEntry(entries: seq<Entry>, f: seq<string>)
    requires f in FiltersOf(entries)
    ensures exists i :: 0 <= i < |entries| && entries[i].filter == f && entries[i].template == FiltersOf(entries)[f]
  {
    var n := |entries| - 1;
    if f != entries[n].filter {
      FilterHasEntry(entries[..n], f);
      var i :| 0 <= i < n && entries[..n][i].filter == f && entries[..n][i].template == FiltersOf(entries[..n])[f];
      assert entries[i].filter == f;
    }
  }

  /** Inserting distinct filters in any order gives the same tree. */
  lemma {:induction false} OrderDoesNotMatter(a: seq<Entry>, b: seq<Entry>)
    requires multiset(a) == multiset(b)
    requires forall j, k :: 0 <= j < k < |a| ==> a[j].filter != a[k].filter
    requires forall j, k :: 0 <= j < k < |b| ==> b[j].filter != b[k].filter
    ensures FiltersOf(a) == FiltersOf(b) && Build(a) == Build(b)
  {
    FiltersIncluded(a, b);
    FiltersIncluded(b, a);
    assert FiltersOf(a) == FiltersOf(b);
    BuildRepresents(a);
    BuildRepresents(b);
    TreeIsCanonical(Build(a), Build(b), FiltersOf(a), []);
  }

  lemma {:induction false} FiltersIncluded(a: seq<Entry>, b: seq<Entry>)
    requires multiset(a) == multiset(b)
    requires forall j, k :: 0 <= j < k < |b| ==> b[j].filter != b[k].filter
    ensures forall f :: f in FiltersOf(a) ==> f in FiltersOf(b) && FiltersOf(b)[f] == FiltersOf(a)[f]
  {
    forall f | f in FiltersOf(a)
      ensures f in FiltersOf(b) && FiltersOf(b)[f] == FiltersOf(a)[f]
    {
      FilterHasEntry(a, f);
      var i :| 0 <= i < |a| && a[i].filter == f && a[i].template == FiltersOf(a)[f];
      assert a[i] in multiset(a);
      assert a[i] in b;
      var k :| 0 <= k < |b| && b[k] == a[i];
      EntryInFilters(b, k);
    }
  }

  // When a matching filter is found.

  lemma {:induction false} NotInside(m: Filters, path: seq<string>, part: string)
    requires forall k :: k in m && |path| < |k| ==> k[|path|] != part
    ensures !Inside(m, path + [part])
  {
    assert forall k :: path + [part] <= k ==> (path + [part])[|path|] == k[|path|];
  }

  /** A filter the search cannot pass by: it matches the line, and it is as long as the line or no filter goes
      on after it with a wildcard. */
  ghost predicate Decisive(m: Filters, path: seq<string>, line: seq<string>, rest: seq<string>) {
    path + rest in m && Matches(rest, line) && (|rest| == |line| || !Inside(m, path + rest + ["*"]))
  }

  ghost predicate HasDecisive(m: Filters, path: seq<string>, line: seq<string>) {
    exists rest :: Decisive(m, path, line, rest)
  }

  /** One step of the lookup: it finds something below, or else it stops here if there is no wildcard child. */
  lemma {:induction false} LookupStep(m: Filters, path: seq<string>, line: seq<string>)
    requires line != []
    ensures Lookup(m, path, line).Found? <==>
              || (line[0] != "*" && Inside(m, path + [line[0]]) && Lookup(m, path + [line[0]], line[1..]).Found?)
              || (Inside(m, path + ["*"]) && Lookup(m, path + ["*"], line[1..]).Found?)
              || (!Inside(m, path + ["*"]) && path in m)
  {
  }

  /** A decisive filter further down is decisive. */
  lemma {:induction false} DecisiveUp(m: Filters, path: seq<string>, line: seq<string>, v: string)
    requires line != [] && (v == line[0] || v == "*") && HasDecisive(m, path + [v], line[1..])
    ensures HasDecisive(m, path, line)
  {
    var rest :| Decisive(m, path + [v], line[1..], rest);
    assert path + ([v] + rest) == path + [v] + rest;
    assert Matches([v] + rest, line);
    assert Decisive(m, path, line, [v] + rest);
  }

  /** A decisive filter that goes on is decisive further down. */
  lemma {:induction false} DecisiveDown(m: Filters, path: seq<string>, line: seq<string>, rest: seq<string>)
    requires Decisive(m, path, line, rest) && rest != []
    ensures (rest[0] == line[0] || rest[0] == "*") && Inside(m, path + [rest[0]])
    ensures HasDecisive(m, path + [rest[0]], line[1..])
  {
    assert path + [rest[0]] + rest[1..] == path + rest;
    assert path + [rest[0]] <= path + rest;
    assert Decisive(m, path + [rest[0]], line[1..], rest[1..]);
  }

  /** The filter that ends here is decisive if the line ends here or there is no wildcard child. */
  lemma {:induction false} DecisiveHere(m: Filters, path: seq<string>, line: seq<string>)
    ensures Decisive(m, path, line, []) <==> path in m && (line == [] || !Inside(m, path + ["*"]))
  {
    assert path + [] == path;
  }

  /** Exactly when a line finds a template: some filter matches it that is as long as the line, or after
      which no filter goes on with a wildcard. */
  lemma {:induction false} FoundExactly(m: Filters, path: seq<string>, line: seq<string>)
    ensures Lookup(m, path, line).Found? <==> HasDecisive(m, path, line)
    decreases |line|
  {
    DecisiveHere(m, path, line);
    if line == [] {
      forall rest | Decisive(m, path, line, rest)
        ensures rest == []
      {
      }
    } else {
      LookupStep(m, path, line);
      FoundExactly(m, path + [line[0]], line[1..]);
      FoundExactly(m, path + ["*"], line[1..]);
      if Lookup(m, path, line).Found? {
        if line[0] != "*" && Inside(m, path + [line[0]]) && Lookup(m, path + [line[0]], line[1..]).Found? {
          DecisiveUp(m, path, line, line[0]);
        } else if Inside(m, path + ["*"]) {
          DecisiveUp(m, path, line, "*");
        }
      }
      if rest :| Decisive(m, path, line, rest) && rest != [] {
        DecisiveDown(m, path, line, rest);
      }
    }
  }

  /** Where filters differ for the first time, an exact part beats a wildcard, and any part beats the end. */
  predicate Beats(f: seq<string>, g: seq<string>) {
    f != [] && (g == [] || if f[0] == g[0] then Beats(f[1..], g[1..]) else g[0] == "*")
  }

  /** The decisive filter that beats all others. */
  ghost predicate Best(m: Filters, path: seq<string>, line: seq<string>, f: seq<string>) {
    Decisive(m, path, line, f) && forall g :: Decisive(m, path, line, g) && g != f ==> Beats(f, g)
  }

  /** The template `r` is that of the best filter. */
  ghost predicate FoundBest(m: Filters, path: seq<string>, line: seq<string>, r: Maybe) {
    exists f :: Best(m, path, line, f) && r == Found(m[path + f])
  }

  ghost predicate OnlyWildcards(m: Filters, path: seq<string>, line: seq<string>) {
    forall g :: Decisive(m, path, line, g) && g != [] ==> g[0] == "*"
  }

  lemma {:induction false} BestBelow(m: Filters, path: seq<string>, line: seq<string>, v: string, f: seq<string>)
    requires line != [] && (v == line[0] || v == "*") && Best(m, path + [v], line[1..], f)
    requires v == line[0] || OnlyWildcards(m, path, line)
    ensures Best(m, path, line, [v] + f)
  {
    assert path + ([v] + f) == path + [v] + f;
    assert Matches([v] + f, line);
    assert ([v] + f)[1..] == f;
    forall g | Decisive(m, path, line, g) && g != [v] + f
      ensures Beats([v] + f, g)
    {
      if g != [] && g[0] == v {
        assert path + [v] + g[1..] == path + g;
        assert Decisive(m, path + [v], line[1..], g[1..]);
        assert g == [v] + g[1..];
      }
    }
  }

  lemma {:induction false} FoundBestBelow(m: Filters, path: seq<string>, line: seq<string>, v: string, r: Maybe)
    requires line != [] && (v == line[0] || v == "*") && FoundBest(m, path + [v], line[1..], r)
    requires v == line[0] || OnlyWildcards(m, path, line)
    ensures FoundBest(m, path, line, r)
  {
    var f :| Best(m, path + [v], line[1..], f) && r == Found(m[path + [v] + f]);
    BestBelow(m, path, line, v, f);
    assert path + ([v] + f) == path + [v] + f;
  }

  /** The template found is that of the best of the decisive filters. */
  lemma {:induction false} BestWins(m: Filters, path: seq<string>, line: seq<string>)
    requires HasDecisive(m, path, line)
    ensures FoundBest(m, path, line, Lookup(m, path, line))
    decreases |line|
  {
    FoundExactly(m, path, line);
    DecisiveHere(m, path, line);
    if line != [] && line[0] != "*" && Inside(m, path + [line[0]]) && Lookup(m, path + [line[0]], line[1..]).Found? {
      FoundExactly(m, path + [line[0]], line[1..]);
      BestWins(m, path + [line[0]], line[1..]);
      FoundBestBelow(m, path, line, line[0], Lookup(m, path, line));
    } else if line != [] && Inside(m, path + ["*"]) {
      forall g | Decisive(m, path, line, g) && g != []
        ensures g[0] == "*"
      {
        DecisiveDown(m, path, line, g);
        FoundExactly(m, path + [g[0]], line[1..]);
      }
      FoundExactly(m, path + ["*"], line[1..]);
      BestWins(m, path + ["*"], line[1..]);
      FoundBestBelow(m, path, line, "*", Lookup(m, path, line));
    } else {
      forall g | Decisive(m, path, line, g)
        ensures g == []
      {
        if g != [] {
          DecisiveDown(m, path, line, g);
          FoundExactly(m, path + [g[0]], line[1..]);
        }
      }
      assert Best(m, path, line, []) && path + [] == path;
    }
  }

  /** Some filter matches the line, and yet the search finds nothing. */
  ghost predicate Missed(m: Filters, line: seq<string>) {
    (exists f :: f in m && Matches(f, line)) && Lookup(m, [], line) == Nil
  }

  /** No line is missed exactly if every line that is matched is matched by a decisive filter. */
  lemma {:induction false} NothingMissed(m: Filters)
    ensures (forall line :: !Missed(m, line))
            <==> forall f, line :: f in m && Matches(f, line) ==> HasDecisive(m, [], line)
  {
    forall line: seq<string>
      ensures Lookup(m, [], line).Found? <==> HasDecisive(m, [], line)
    {
      FoundExactly(m, [], line);
    }
    if forall line :: !Missed(m, line) {
      forall f, line | f in m && Matches(f, line)
        ensures HasDecisive(m, [], line)
      {
        assert !Missed(m, line);
      }
    }
  }

  /** In particular no line is missed if no filter goes on with a wildcard where another one ends. */
  lemma {:induction false} NoWildcardAfterFilter(m: Filters, line: seq<string>)
    requires forall f :: f in m ==> !Inside(m, f + ["*"])
    ensures !Missed(m, line)
  {
    FoundExactly(m, [], line);
    if f :| f in m && Matches(f, line) {
      assert [] + f == f;
      assert Decisive(m, [], line, f);
    }
  }

  /** A filter that matches can be missed: the search does not come back from a wildcard child to the
      filter that ends at its parent, so with filters "a" and "a.*.b" the line "a.x.c" finds nothing. */
  lemma {:induction false} WildcardHidesShorterFilter(m: Filters, a: string, b: string, x: string, c: string)
    requires a != "*" && b != c && b != "*" && m.Keys == {[a], [a, "*", b]}
    ensures Missed(m, [a, x, c])
  {
    var line := [a, x, c];
    FoundExactly(m, [], line);
    assert [a] in m && Matches([a], line);
    forall rest: seq<string>
      ensures !Decisive(m, [], line, rest)
    {
      assert [] + rest == rest;
      if rest == [a] {
        assert [a, "*", b] in m && [a] + ["*"] <= [a, "*", b];
      } else if rest == [a, "*", b] {
        assert rest[2] != line[2];
      }
    }
  }

  /** The filter with the most parts among those that are a prefix of the line. */
  function Longest(m: Filters, path: seq<string>, line: seq<string>): Maybe
    decreases |line|
  {
    if line == [] then Get(m, path)
    else
      var r := Longest(m, path + [line[0]], line[1..]);
      if r.Found? then r else Get(m, path)
  }

  lemma {:induction false} NothingLonger(m: Filters, path: seq<string>, line: seq<string>)
    requires !Inside(m, path)
    ensures Longest(m, path, line) == Nil
    decreases |line|
  {
    assert path <= path;
    if line != [] {
      assert forall k :: k in m && path + [line[0]] <= k ==> path <= k;
      NothingLonger(m, path + [line[0]], line[1..]);
    }
  }

  /** Among filters without wildcards the search finds the longest that is a prefix of the line, so it
      finds one whenever there is one. */
  lemma {:induction false} WithoutWildcardsLongestWins(m: Filters, path: seq<string>, line: seq<string>)
    requires forall k :: k in m ==> "*" !in k
    ensures Lookup(m, path, line) == Longest(m, path, line)
    decreases |line|
  {
    if line != [] {
      NotInside(m, path, "*");
      if Inside(m, path + [line[0]]) {
        WithoutWildcardsLongestWins(m, path + [line[0]], line[1..]);
      } else {
        NothingLonger(m, path + [line[0]], line[1..]);
      }
    }
  }

  // The matcher.

  /** Go's strings.Split, left abstract. */
  type Splitter = (string, string) -> seq<string>

  class Matcher {
    const split: Splitter
    var root: Node
    var separator: string        // the separator field of the root node
    var defaultTemplate: Maybe
    ghost var entries: seq<Entry>

    ghost predicate Valid()
      reads this
    {
      root == Build(entries)
    }

    constructor (split: Splitter, defaultTemplate: Maybe)
      ensures Valid() && entries == [] && separator == "" && this.defaultTemplate == defaultTemplate
                && this.split == split
    {
      this.split := split;
      root, separator := Node("", [], Nil), "";
      this.defaultTemplate := defaultTemplate;
      entries := [];
    }

    /** An empty filter sets the default template, any other one is inserted into the tree. Either way
        lines will be split at the separator of this template. */
    method Add(filter: string, template: Template)
      requires Valid()
      modifies this
      ensures Valid() && separator == template.separator
      ensures filter == "" ==> defaultTemplate == Found(template) && entries == old(entries)
      ensures filter != "" ==> && defaultTemplate == old(defaultTemplate)
                               && entries == old(entries) + [Entry(split(filter, template.separator), template)]
    {
      separator := template.separator;
      if filter == "" {
        defaultTemplate := Found(template);
        return;
      }
      var values := split(filter, separator);
      root := Insert(root, values, template);
      entries := entries + [Entry(values, template)];
      assert entries[..|entries| - 1] == old(entries);
    }

    /** The template of the best filter for the line, or the default template if no filter that matches is
        as long as the line or without a wildcard after it. */
    method Match(line: string) returns (r: Maybe)
      requires Valid()
      ensures var m, parts := FiltersOf(entries), split(line, separator);
              && (HasDecisive(m, [], parts) ==> r.Found? && FoundBest(m, [], parts, r))
              && (!HasDecisive(m, [], parts) ==> r == defaultTemplate)
    {
      ghost var m, parts := FiltersOf(entries), split(line, separator);
      TreeRefinesMap(entries, parts);
      FoundExactly(m, [], parts);
      if HasDecisive(m, [], parts) {
        BestWins(m, [], parts);
      }
      r := Search(root, split(line, separator));
      if r.Found? {
        return;
      }
      r := defaultTemplate;
    }
  }
}
