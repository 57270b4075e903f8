/** The recursive Debug formatter of the bus topology: it terminates on every forest,
  * and reading its output back gives each present device once, under its own parent.
  */
module TopologyFormat {
  import opened Topologies

  /** The pieces the formatter writes: a device number, ":(", ")" and " ". */
  datatype Token = Num(n: nat) | Open | Close | Space

  predicate Child(t: Table, i: nat, j: nat) {
    0 < j < MAX_DEVICES && t[j] != 0 && HubOf(t[j]) == i
  }

  // ---- termination: what lies below a device shrinks on the way down ----

  /** `i` is the ancestor of `k` that is `n + 1` links up. */
  ghost predicate Ancestor(t: Table, k: nat, i: nat, n: nat)
    decreases n
  {
    && Present(t, k)
    && if n == 0 then HubOf(t[k]) == i else Ancestor(t, HubOf(t[k]), i, n - 1)
  }

  ghost predicate Under(t: Table, k: nat, i: nat) {
    exists n: nat :: Ancestor(t, k, i, n)
  }

  ghost function Subtree(t: Table, i: nat): set<nat> {
    set k: nat | k < MAX_DEVICES && Under(t, k, i)
  }

  lemma {:induction false} AncestorChain(t: Table, k: nat, j: nat, i: nat, n: nat)
    requires Ancestor(t, k, j, n) && Present(t, j) && HubOf(t[j]) == i
    ensures Ancestor(t, k, i, n + 1)
    decreases n
  {
    if n > 0 {
      AncestorChain(t, HubOf(t[k]), j, i, n - 1);
    }
  }

  /** The depth of an ancestor is what the number of links leaves of one's own. */
  lemma {:induction false} AncestorDepth(t: Table, k: nat, i: nat, n: nat, d: nat)
    requires t[0] == 0 && Ancestor(t, k, i, n) && Depth(t, k, d)
    ensures if i == 0 then d == n + 1 else d > n + 1 && Depth(t, i, d - n - 1)
    decreases n
  {
    if n > 0 {
      assert HubOf(t[k]) != 0;
      AncestorDepth(t, HubOf(t[k]), i, n - 1, d - 1);
    }
  }

  lemma {:induction false} DepthUnique(t: Table, i: nat, d: nat, d': nat)
    requires Depth(t, i, d) && Depth(t, i, d')
    ensures d == d'
    decreases d
  {
    if HubOf(t[i]) != 0 {
      DepthUnique(t, HubOf(t[i]), d - 1, d' - 1);
    }
  }

  lemma {:induction false} AncestorUnique(t: Table, k: nat, i: nat, i': nat, n: nat)
    requires Ancestor(t, k, i, n) && Ancestor(t, k, i', n)
    ensures i == i'
    decreases n
  {
    if n > 0 {
      AncestorUnique(t, HubOf(t[k]), i, i', n - 1);
    }
  }

  lemma NotOwnAncestor(t: Table, j: nat)
    requires Forest(t) && Present(t, j)
    ensures !Under(t, j, j)
  {
    forall n: nat
      ensures !Ancestor(t, j, j, n)
    {
      if Ancestor(t, j, j, n) {
        assert Rooted(t, j);
        var d: nat :| Depth(t, j, d);
        AncestorDepth(t, j, j, n, d);
        DepthUnique(t, j, d, d - n - 1);
      }
    }
  }

  lemma SubtreeShrinks(t: Table, i: nat, j: nat)
    requires Forest(t) && Child(t, i, j)
    ensures j in Subtree(t, i) && j !in Subtree(t, j) && Subtree(t, j) < Subtree(t, i)
  {
    assert Ancestor(t, j, i, 0);
    NotOwnAncestor(t, j);
    forall k | k in Subtree(t, j)
      ensures k in Subtree(t, i)
    {
      var n: nat :| Ancestor(t, k, j, n);
      AncestorChain(t, k, j, i, n);
    }
  }

  /** Two children of the same device have nothing below them in common. */
  lemma SiblingsApart(t: Table, i: nat, j: nat, j': nat, k: nat)
    requires Forest(t) && Child(t, i, j) && Child(t, i, j')
    requires (k == j || Under(t, k, j)) && (k == j' || Under(t, k, j'))
    ensures j == j'
  {
    assert Rooted(t, j) && Rooted(t, j');
    var d: nat :| Depth(t, j, d);
    var d': nat :| Depth(t, j', d');
    if i == 0 {
      assert d == d' == 1;
    } else {
      DepthUnique(t, i, d - 1, d' - 1);
    }
    var n := if k == j then 0 else var n: nat :| Ancestor(t, k, j, n); n + 1;
    var n' := if k == j' then 0 else var n': nat :| Ancestor(t, k, j', n'); n' + 1;
    assert Present(t, k) && Rooted(t, k);
    var e: nat :| Depth(t, k, e);
    assert e == d + n by {
      if k != j {
        AncestorDepth(t, k, j, n - 1, e);
        DepthUnique(t, j, d, e - n);
      } else {
        DepthUnique(t, j, d, e);
      }
    }
    assert e == d' + n' by {
      if k != j' {
        AncestorDepth(t, k, j', n' - 1, e);
        DepthUnique(t, j', d', e - n');
      } else {
        DepthUnique(t, j', d', e);
      }
    }
    if n > 0 {
      AncestorUnique(t, k, j, j', n - 1);
    }
  }

  // ---- what the formatter writes ----

  ghost function Render(t: Table, i: nat): seq<Token>
    requires Forest(t)
    decreases Subtree(t, i), MAX_DEVICES + 1
  {
    [Num(i)]
    + if HasChild(t, i) then [Open] + RenderFrom(t, i, 1, false) + [Close] else []
  }

  /** The children of `i` from number `j` on; `any` says one has been written already. */
  ghost function RenderFrom(t: Table, i: nat, j: nat, any: bool): seq<Token>
    requires Forest(t) && 0 < j <= MAX_DEVICES
    decreases Subtree(t, i), MAX_DEVICES - j
  {
    if j == MAX_DEVICES then []
    else if Child(t, i, j) then
      SubtreeShrinks(t, i, j);
      (if any then [Space] else []) + Render(t, j) + RenderFrom(t, i, j + 1, true)
    else RenderFrom(t, i, j + 1, any)
  }

  ghost predicate HasChild(t: Table, i: nat) {
    exists j :: Child(t, i, j)
  }

  method AnyChild(bus: Topology, i: nat) returns (any: bool)
    requires bus.Valid()
    ensures any <==> HasChild(bus.T(), i)
  {
    any := false;
    for j := 1 to MAX_DEVICES
      invariant any ==> HasChild(bus.T(), i)
      invariant !any ==> forall k: nat :: k < j ==> !Child(bus.T(), i, k)
    {
      if bus.parent[j] != 0 && HubOf(bus.parent[j]) == i {
        assert Child(bus.T(), i, j);
        any := true;
      }
    }
  }

  method FmtInner(bus: Topology, i: nat, f: seq<Token>) returns (f': seq<Token>)
    requires bus.Valid() && Forest(bus.T())
    ensures f' == f + Render(bus.T(), i)
    decreases Subtree(bus.T(), i)
  {
    ghost var t := bus.T();
    f' := f + [Num(i)];
    var any := AnyChild(bus, i);
    if any {
      f' := f' + [Open];
      var start := f';
      any := false;
      for j := 1 to MAX_DEVICES
        invariant f' + RenderFrom(t, i, j, any) == start + RenderFrom(t, i, 1, false)
      {
        if bus.parent[j] != 0 && HubOf(bus.parent[j]) == i {
          SubtreeShrinks(t, i, j);
          var separator := if any then [Space] else [];
          ghost var was, rest := f', RenderFrom(t, i, j + 1, true);
          f' := FmtInner(bus, j, f' + separator);
          assert f' + rest == was + (separator + Render(t, j) + rest);
          any := true;
        }
      }
      ghost var kids := RenderFrom(t, i, 1, false);
      assert f' == start + kids;
      f' := f' + [Close];
      assert f' == f + ([Num(i)] + ([Open] + kids + [Close]));
    } else {
      assert f' == f + ([Num(i)] + []);
    }
  }

  // ---- reading it back ----

  /** A reader of the output: a stack of open parents, and the number just finished. It
    * reports each number with the parent it stands under.
    */
  function Read(f: seq<Token>, stack: seq<nat>, last: nat): seq<(nat, nat)> {
    if f == [] then [] else
    match f[0]
    case Num(n) => (if stack == [] then [] else [(stack[|stack| - 1], n)]) + Read(f[1..], stack, n)
    case Open => Read(f[1..], stack + [last], last)
    case Close =>
      if stack == [] then [] else Read(f[1..], stack[..|stack| - 1], stack[|stack| - 1])
    case Space => Read(f[1..], stack, last)
  }

  /** The parent and number of everything below `i`, in the order it is written. */
  ghost function Edges(t: Table, i: nat, j: nat): seq<(nat, nat)>
    requires Forest(t) && 0 < j <= MAX_DEVICES
    decreases Subtree(t, i), MAX_DEVICES - j
  {
    if j == MAX_DEVICES then []
    else if Child(t, i, j) then
      SubtreeShrinks(t, i, j);
      [(i, j)] + Edges(t, j, 1) + Edges(t, i, j + 1)
    else Edges(t, i, j + 1)
  }

  lemma {:induction false} NoChildrenNoEdges(t: Table, i: nat, j: nat)
    requires Forest(t) && 0 < j <= MAX_DEVICES && !HasChild(t, i)
    ensures Edges(t, i, j) == []
    decreases MAX_DEVICES - j
  {
    if j < MAX_DEVICES {
      assert !Child(t, i, j);
      NoChildrenNoEdges(t, i, j + 1);
    }
  }

  lemma {:induction false} ReadRender(t: Table, i: nat, rest: seq<Token>, stack: seq<nat>, last: nat)
    requires Forest(t)
    ensures Read(Render(t, i) + rest, stack, last)
         == (if stack == [] then [] else [(stack[|stack| - 1], i)]) + Edges(t, i, 1) + Read(rest, stack, i)
    decreases Subtree(t, i), MAX_DEVICES + 1
  {
    var f := Render(t, i) + rest;
    if HasChild(t, i) {
      var kids := RenderFrom(t, i, 1, false);
      var after := kids + ([Close] + rest);
      assert f == [Num(i)] + ([Open] + after);
      assert f[1..] == [Open] + after && f[1..][1..] == after;
      ReadRenderFrom(t, i, 1, false, [Close] + rest, stack + [i], i);
      var last' := Last(t, i, 1, i);
      assert ([Close] + rest)[1..] == rest && (stack + [i])[..|stack|] == stack;
      assert Read([Close] + rest, stack + [i], last') == Read(rest, stack, i);
    } else {
      NoChildrenNoEdges(t, i, 1);
      assert f == [Num(i)] + rest && f[1..] == rest;
    }
  }

  /** The number a reader has just finished after the children of `i` from `j` on. */
  ghost function Last(t: Table, i: nat, j: nat, last: nat): nat
    requires 0 < j <= MAX_DEVICES
    decreases MAX_DEVICES - j
  {
    if j == MAX_DEVICES then last else Last(t, i, j + 1, if Child(t, i, j) then j else last)
  }

  lemma ReadSeparator(any: bool, body: seq<Token>, stack: seq<nat>, last: nat)
    ensures Read((if any then [Space] else []) + body, stack, last) == Read(body, stack, last)
  {
    if any {
      assert ([Space] + body)[1..] == body;
    } else {
      assert [] + body == body;
    }
  }

  lemma {:induction false} ReadRenderFrom(t: Table, i: nat, j: nat, any: bool, rest: seq<Token>,
                                          stack: seq<nat>, last: nat)
    requires Forest(t) && 0 < j <= MAX_DEVICES && |stack| > 0 && stack[|stack| - 1] == i
    ensures Read(RenderFrom(t, i, j, any) + rest, stack, last)
         == Edges(t, i, j) + Read(rest, stack, Last(t, i, j, last))
    decreases Subtree(t, i), MAX_DEVICES - j
  {
    hide Read, Forest, Render;
    if j == MAX_DEVICES {
      assert RenderFrom(t, i, j, any) + rest == rest;
    } else if Child(t, i, j) {
      SubtreeShrinks(t, i, j);
      var tail := RenderFrom(t, i, j + 1, true) + rest;
      var body := Render(t, j) + tail;
      ReadRender(t, j, tail, stack, last);
      ReadRenderFrom(t, i, j + 1, true, rest, stack, j);
      var separator := if any then [Space] else [];
      assert RenderFrom(t, i, j, any) + rest == separator + body;
      ReadSeparator(any, body, stack, last);
    } else {
      ReadRenderFrom(t, i, j + 1, any, rest, stack, last);
    }
  }

  // ---- each present device once, under its own parent ----

  predicate Once(edges: seq<(nat, nat)>) {
    forall a, b :: 0 <= a < b < |edges| ==> edges[a].1 != edges[b].1
  }

  /** What lies below `i` through its children numbered `j` and up. */
  ghost predicate Reached(t: Table, i: nat, j: nat, k: nat) {
    exists c: nat :: j <= c && Child(t, i, c) && (k == c || Under(t, k, c))
  }

  ghost predicate Lists(t: Table, i: nat, j: nat, edges: seq<(nat, nat)>) {
    && (forall e :: e in edges ==> Present(t, e.1) && e.0 == HubOf(t[e.1]) && Reached(t, i, j, e.1))
    && (forall k: nat :: Reached(t, i, j, k) && Present(t, k) ==> (HubOf(t[k]), k) in edges)
  }

  lemma {:induction false} UnderThroughChild(t: Table, k: nat, i: nat, n: nat)
    requires Forest(t) && Ancestor(t, k, i, n)
    ensures Reached(t, i, 1, k)
    decreases n
  {
    if n == 0 {
      assert Child(t, i, k);
    } else {
      var m := HubOf(t[k]);
      UnderThroughChild(t, m, i, n - 1);
      var c: nat :| 1 <= c && Child(t, i, c) && (m == c || Under(t, m, c));
      if m == c {
        assert Ancestor(t, k, c, 0);
      } else {
        var x: nat :| Ancestor(t, m, c, x);
        assert Ancestor(t, k, c, x + 1);
      }
    }
  }

  lemma {:induction false} EdgesList(t: Table, i: nat, j: nat)
    requires Forest(t) && 0 < j <= MAX_DEVICES
    ensures Lists(t, i, j, Edges(t, i, j)) && Once(Edges(t, i, j))
    decreases Subtree(t, i), MAX_DEVICES - j
  {
    if j < MAX_DEVICES {
      EdgesList(t, i, j + 1);
      if Child(t, i, j) {
        SubtreeShrinks(t, i, j);
        EdgesList(t, j, 1);
        EdgesJoin(t, i, j, Edges(t, j, 1), Edges(t, i, j + 1));
      }
    }
  }

  /** What lies below a child lies below its parent, through that child. */
  lemma BelowJoins(t: Table, i: nat, j: nat, k: nat)
    requires Forest(t) && Child(t, i, j) && Reached(t, j, 1, k)
    ensures Under(t, k, j) && Reached(t, i, j, k) && k != j
  {
    hide Forest;
    var c: nat :| 1 <= c && Child(t, j, c) && (k == c || Under(t, k, c));
    if k == c {
      assert Ancestor(t, k, j, 0);
    } else {
      var n: nat :| Ancestor(t, k, c, n);
      AncestorChain(t, k, c, j, n);
    }
    NotOwnAncestor(t, j);
  }

  /** What lies below later children is not below this one. */
  lemma RestApart(t: Table, i: nat, j: nat, k: nat)
    requires Forest(t) && Child(t, i, j) && Reached(t, i, j + 1, k)
    ensures Reached(t, i, j, k) && k != j && !Under(t, k, j)
  {
    hide Forest;
    var c: nat :| j + 1 <= c && Child(t, i, c) && (k == c || Under(t, k, c));
    if k == j || Under(t, k, j) {
      SiblingsApart(t, i, j, c, k);
    }
  }

  /** Everything from a child on is that child, or below it, or from the next child on. */
  lemma ReachedSplits(t: Table, i: nat, j: nat, k: nat)
    requires Forest(t) && Reached(t, i, j, k)
    ensures k == j || Reached(t, j, 1, k) || Reached(t, i, j + 1, k)
  {
    var c: nat :| j <= c && Child(t, i, c) && (k == c || Under(t, k, c));
    if c == j && k != j {
      var n: nat :| Ancestor(t, k, j, n);
      UnderThroughChild(t, k, j, n);
    }
  }

  lemma EdgesJoin(t: Table, i: nat, j: nat, below: seq<(nat, nat)>, rest: seq<(nat, nat)>)
    requires Forest(t) && Child(t, i, j)
    requires Lists(t, j, 1, below) && Once(below)
    requires Lists(t, i, j + 1, rest) && Once(rest)
    ensures var all := [(i, j)] + below + rest; Lists(t, i, j, all) && Once(all)
  {
    assert Reached(t, i, j, j);
    hide Forest, Reached, Under;
    var all := [(i, j)] + below + rest;
    forall e | e in below
      ensures Under(t, e.1, j) && Reached(t, i, j, e.1) && e.1 != j
    {
      BelowJoins(t, i, j, e.1);
    }
    forall e | e in rest
      ensures Reached(t, i, j, e.1) && e.1 != j && !Under(t, e.1, j)
    {
      RestApart(t, i, j, e.1);
    }
    forall k: nat | Reached(t, i, j, k) && Present(t, k)
      ensures (HubOf(t[k]), k) in all
    {
      ReachedSplits(t, i, j, k);
    }
  }

  /** The text the formatter writes for a forest, read back: every present device exactly
    * once, each under its own parent, and nothing else.
    */
  lemma DebugListsEveryDevice(t: Table)
    requires Forest(t)
    ensures var edges := Read(Render(t, 0), [], 0);
      && Once(edges)
      && (forall k: nat :: Present(t, k) ==> (HubOf(t[k]), k) in edges)
      && (forall e :: e in edges ==> Present(t, e.1) && e.0 == HubOf(t[e.1]))
  {
    ReadRender(t, 0, [], [], 0);
    assert Render(t, 0) + [] == Render(t, 0);
    EdgesList(t, 0, 1);
    forall k: nat | Present(t, k)
      ensures Reached(t, 0, 1, k)
    {
      assert Rooted(t, k);
      var d: nat :| Depth(t, k, d);
      DepthIsAncestry(t, k, d);
      UnderThroughChild(t, k, 0, d - 1);
    }
  }

  lemma {:induction false} DepthIsAncestry(t: Table, k: nat, d: nat)
    requires Depth(t, k, d)
    ensures Ancestor(t, k, 0, d - 1)
    decreases d
  {
    if HubOf(t[k]) != 0 {
      DepthIsAncestry(t, HubOf(t[k]), d - 1);
    }
  }

  // ---- punctuation ----

  /** What may stand next to what: a number is never run into another one, a list is never
    * empty, and a space is always between two of its items.
    */
  predicate MayFollow(a: Token, b: Token) {
    match a
    case Num(_) => !b.Num?
    case Open => b.Num?
    case Space => b.Num?
    case Close => b.Close? || b.Space?
  }

  ghost predicate Spaced(f: seq<Token>) {
    forall k, k' :: 0 <= k && k' == k + 1 && k' < |f| ==> MayFollow(f[k], f[k'])
  }

  /** Begins with a number, and ends with one or with the end of a list. */
  ghost predicate Whole(f: seq<Token>) {
    f != [] && f[0].Num? && (f[|f| - 1].Num? || f[|f| - 1].Close?) && Spaced(f)
  }

  lemma SpacedConcat(a: seq<Token>, b: seq<Token>)
    requires Spaced(a) && Spaced(b)
    requires a != [] && b != [] ==> MayFollow(a[|a| - 1], b[0])
    ensures Spaced(a + b)
  {
  }

  lemma WholeNumber(i: nat)
    ensures Whole([Num(i)])
  {
  }

  lemma WholeList(i: nat, kids: seq<Token>)
    requires Whole(kids)
    ensures Whole([Num(i)] + ([Open] + kids + [Close]))
  {
    SpacedConcat([Open], kids);
    SpacedConcat([Open] + kids, [Close]);
    hide Spaced;
    WholeNumber(i);
    SpacedConcat([Num(i)], [Open] + kids + [Close]);
  }

  lemma WholePair(a: seq<Token>, b: seq<Token>)
    requires Whole(a) && Whole(b)
    ensures Whole(a + ([Space] + b))
  {
    SpacedConcat([Space], b);
    hide Spaced;
    SpacedConcat(a, [Space] + b);
  }

  /** The text is punctuated: numbers are kept apart, and a space stands just between siblings. */
  lemma {:induction false} RenderWhole(t: Table, i: nat)
    requires Forest(t)
    ensures Whole(Render(t, i))
    decreases Subtree(t, i), MAX_DEVICES + 1
  {
    hide Forest, Whole;
    WholeNumber(i);
    if HasChild(t, i) {
      var j: nat :| Child(t, i, j);
      RenderFromWhole(t, i, 1, j);
      WholeList(i, RenderFrom(t, i, 1, false));
    } else {
      assert Render(t, i) == [Num(i)];
    }
  }

  /** The children of `i` from `j` on, of which `c` is one. */
  lemma {:induction false} RenderFromWhole(t: Table, i: nat, j: nat, c: nat)
    requires Forest(t) && 0 < j <= c && Child(t, i, c)
    ensures Whole(RenderFrom(t, i, j, false))
    ensures RenderFrom(t, i, j, true) == [Space] + RenderFrom(t, i, j, false)
    decreases Subtree(t, i), MAX_DEVICES - j
  {
    hide Forest, Whole;
    if !Child(t, i, j) {
      RenderFromWhole(t, i, j + 1, c);
    } else {
      SubtreeShrinks(t, i, j);
      RenderWhole(t, j);
      if c' :| j < c' && Child(t, i, c') {
        RenderFromWhole(t, i, j + 1, c');
        WholePair(Render(t, j), RenderFrom(t, i, j + 1, false));
        assert RenderFrom(t, i, j, false) == Render(t, j) + ([Space] + RenderFrom(t, i, j + 1, false));
      } else {
        NothingWritten(t, i, j + 1);
        assert RenderFrom(t, i, j, false) == Render(t, j);
      }
    }
  }

  lemma {:induction false} NothingWritten(t: Table, i: nat, j: nat)
    requires Forest(t) && 0 < j <= MAX_DEVICES
    requires forall c :: j <= c ==> !Child(t, i, c)
    ensures RenderFrom(t, i, j, true) == []
    decreases MAX_DEVICES - j
  {
    if j < MAX_DEVICES {
      NothingWritten(t, i, j + 1);
    }
  }

  // ---- order ----

  /** The children of a device come in increasing order. */
  ghost predicate Ascending(edges: seq<(nat, nat)>) {
    forall a, b :: 0 <= a < b < |edges| && edges[a].0 == edges[b].0 ==> edges[a].1 < edges[b].1
  }

  /** Whose children the edges below `i` are, and its own from `j` on. */
  ghost predicate Parents(t: Table, i: nat, j: nat, edges: seq<(nat, nat)>) {
    forall e :: e in edges ==> if e.0 == i then j <= e.1 else Under(t, e.0, i)
  }

  lemma {:induction false} EdgesAscend(t: Table, i: nat, j: nat)
    requires Forest(t) && 0 < j <= MAX_DEVICES
    ensures Ascending(Edges(t, i, j)) && Parents(t, i, j, Edges(t, i, j))
    decreases Subtree(t, i), MAX_DEVICES - j
  {
    if j < MAX_DEVICES {
      hide Forest, Ascending, Parents, Under, Lists, Once;
      EdgesAscend(t, i, j + 1);
      if Child(t, i, j) {
        SubtreeShrinks(t, i, j);
        EdgesAscend(t, j, 1);
        EdgesList(t, i, j + 1);
        AscendJoin(t, i, j, Edges(t, j, 1), Edges(t, i, j + 1));
      } else {
        assert Parents(t, i, j, Edges(t, i, j + 1)) by {
          ParentsWiden(t, i, j, Edges(t, i, j + 1));
        }
      }
    } else {
      assert Edges(t, i, j) == [];
    }
  }

  lemma ParentsWiden(t: Table, i: nat, j: nat, edges: seq<(nat, nat)>)
    requires Parents(t, i, j + 1, edges)
    ensures Parents(t, i, j, edges)
  {
  }

  /** A child's own children are listed under it or below it, never under its parent or
    * a later child's.
    */
  lemma AscendJoin(t: Table, i: nat, j: nat, below: seq<(nat, nat)>, rest: seq<(nat, nat)>)
    requires Forest(t) && Child(t, i, j)
    requires Ascending(below) && Parents(t, j, 1, below)
    requires Ascending(rest) && Parents(t, i, j + 1, rest) && Lists(t, i, j + 1, rest)
    ensures var all := [(i, j)] + below + rest; Ascending(all) && Parents(t, i, j, all)
  {
    hide Forest, Under, Reached;
    forall e | e in below
      ensures e.0 != i && Under(t, e.0, i)
    {
      ParentBelow(t, i, j, e.0);
    }
    forall e, e' | e in below && e' in rest
      ensures e.0 != e'.0
    {
      RestApart(t, i, j, e'.1);
      if e.0 == e'.0 {
        ParentUnder(t, j, e'.0, e'.1);
      }
    }
  }

  lemma ParentBelow(t: Table, i: nat, j: nat, p: nat)
    requires Forest(t) && Child(t, i, j) && (p == j || Under(t, p, j))
    ensures p != i && Under(t, p, i)
  {
    assert Ancestor(t, j, i, 0);
    if p != j {
      var n: nat :| Ancestor(t, p, j, n);
      AncestorChain(t, p, j, i, n);
    }
    if p == i {
      NotOwnAncestor(t, i);
    }
  }

  lemma ParentUnder(t: Table, j: nat, p: nat, k: nat)
    requires Present(t, k) && HubOf(t[k]) == p && (p == j || Under(t, p, j))
    ensures Under(t, k, j)
  {
    if p == j {
      assert Ancestor(t, k, j, 0);
    } else {
      var n: nat :| Ancestor(t, p, j, n);
      assert Ancestor(t, k, j, n + 1);
    }
  }

  /** The formatter's text: punctuated, beginning with the root, and each device's children in
    * increasing order.
    */
  lemma DebugInOrder(t: Table)
    requires Forest(t)
    ensures Whole(Render(t, 0)) && Ascending(Read(Render(t, 0), [], 0))
  {
    RenderWhole(t, 0);
    ReadRender(t, 0, [], [], 0);
    assert Render(t, 0) + [] == Render(t, 0);
    EdgesAscend(t, 0, 1);
  }
}
