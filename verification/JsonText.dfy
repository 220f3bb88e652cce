/** `textValues` of src/adapters/base.ts: every string of a parsed record, gathered
    with an explicit stack under two bounds. */
module JsonText {

  const MAX_JSON_VALUE_NODES: nat := 100_000
  const MAX_JSON_VALUE_DEPTH: nat := 64

  /** A parsed value: a string, an array or object by its children, anything else. */
  datatype Tree = Text(text: string) | Branch(children: seq<Tree>) | Leaf

  /** A frame of the stack: a value to enter, or an entered one with the children
      its iterator has left. */
  datatype StackFrame = Enter(value: Tree, depth: nat) | Children(rest: seq<Tree>, depth: nat)

  // ------------------------------------------------------------------ what it means

  /** Strings above the depth bound, in document order. */
  function Shallow(value: Tree, depth: nat): seq<string>
    decreases value
  {
    match value
    case Text(text) => [text]
    case Leaf => []
    case Branch(children) => if depth >= MAX_JSON_VALUE_DEPTH then [] else ShallowAll(children, depth + 1)
  }

  function ShallowAll(values: seq<Tree>, depth: nat): seq<string>
    decreases values
  {
    if values == [] then [] else Shallow(values[0], depth) + ShallowAll(values[1..], depth)
  }

  function Nodes(value: Tree): nat
    decreases value
  {
    if value.Branch? then 1 + NodesOf(value.children) else 1
  }

  function NodesOf(values: seq<Tree>): nat
    decreases values
  {
    if values == [] then 0 else Nodes(values[0]) + NodesOf(values[1..])
  }

  /** What a visit of at most `left` nodes gathers, and how many it leaves. */
  function Collect(value: Tree, depth: nat, left: nat): (seq<string>, nat)
    decreases value
  {
    if left == 0 then ([], 0)
    else
      match value
      case Text(text) => ([text], left - 1)
      case Leaf => ([], left - 1)
      case Branch(children) => if depth >= MAX_JSON_VALUE_DEPTH then ([], left - 1) else CollectAll(children, depth + 1, left - 1)
  }

  function CollectAll(values: seq<Tree>, depth: nat, left: nat): (seq<string>, nat)
    decreases values
  {
    if values == [] then ([], left)
    else
      var (first, mid) := Collect(values[0], depth, left);
      var (more, end) := CollectAll(values[1..], depth, mid);
      (first + more, end)
  }

  /** What the stack still has to give. */
  function Pending(stack: seq<StackFrame>, left: nat): seq<string> {
    if stack == [] then []
    else
      var top := stack[|stack| - 1];
      var (strings, after) := if top.Enter? then Collect(top.value, top.depth, left) else CollectAll(top.rest, top.depth + 1, left);
      strings + Pending(stack[..|stack| - 1], after)
  }

  function Weight(stack: seq<StackFrame>): nat {
    if stack == [] then 0
    else
      var top := stack[|stack| - 1];
      Weight(stack[..|stack| - 1]) + (if top.Enter? then 1 else 2 * |top.rest| + 1)
  }

  // ------------------------------------------------------------------------ the walk

  lemma PendingTop(stack: seq<StackFrame>, top: StackFrame, left: nat)
    ensures var (strings, after) := if top.Enter? then Collect(top.value, top.depth, left) else CollectAll(top.rest, top.depth + 1, left);
            Pending(stack + [top], left) == strings + Pending(stack, after)
    ensures Weight(stack + [top]) == Weight(stack) + if top.Enter? then 1 else 2 * |top.rest| + 1
  {
    hide Collect;
    hide CollectAll;
    assert (stack + [top])[..|stack + [top]| - 1] == stack;
  }

  lemma {:induction false} CollectNone(values: seq<Tree>, depth: nat)
    ensures CollectAll(values, depth, 0) == ([], 0)
    decreases |values|
  {
    if values != [] {
      CollectNone(values[1..], depth);
      var none: seq<string> := [];
      assert Collect(values[0], depth, 0) == (none, 0) && none + none == none;
      assert CollectAll(values, depth, 0) == (none + CollectAll(values[1..], depth, 0).0, 0);
    }
  }

  lemma {:induction false} PendingNone(stack: seq<StackFrame>)
    ensures Pending(stack, 0) == []
    decreases |stack|
  {
    if stack != [] {
      var top := stack[|stack| - 1];
      if top.Children? {
        CollectNone(top.rest, top.depth + 1);
      }
      PendingNone(stack[..|stack| - 1]);
    }
  }

  /** One child taken from the iterator on top. */
  lemma TakeChild(stack: seq<StackFrame>, rest: seq<Tree>, depth: nat, left: nat)
    requires rest != []
    ensures Pending(stack + [Children(rest, depth)], left)
         == Pending(stack + [Children(rest[1..], depth)] + [Enter(rest[0], depth + 1)], left)
    ensures Weight(stack + [Children(rest[1..], depth)] + [Enter(rest[0], depth + 1)]) < Weight(stack + [Children(rest, depth)])
  {
    hide Collect;
    hide Pending;
    var (first, mid) := Collect(rest[0], depth + 1, left);
    var (more, end) := CollectAll(rest[1..], depth + 1, mid);
    PendingTop(stack, Children(rest, depth), left);
    PendingTop(stack + [Children(rest[1..], depth)], Enter(rest[0], depth + 1), left);
    PendingTop(stack, Children(rest[1..], depth), mid);
    assert first + more + Pending(stack, end) == first + (more + Pending(stack, end));
  }

  /** `textValues`: the walk with an explicit stack gathers exactly what the bounded
      recursive visit does. */
  method TextValues(value: Tree) returns (strings: seq<string>)
    ensures strings == Collect(value, 0, MAX_JSON_VALUE_NODES).0
  {
    hide Pending;
    hide Weight;
    hide Collect;
    var stack := [Enter(value, 0)];
    var visitedNodes := 0;
    strings := [];
    PendingTop([], Enter(value, 0), MAX_JSON_VALUE_NODES);
    NothingPending(Collect(value, 0, MAX_JSON_VALUE_NODES).1);
    assert [] + [Enter(value, 0)] == stack;
    ghost var whole := Collect(value, 0, MAX_JSON_VALUE_NODES).0;
    assert whole + [] == whole;
    while |stack| > 0 && visitedNodes < MAX_JSON_VALUE_NODES
      invariant visitedNodes <= MAX_JSON_VALUE_NODES
      invariant strings + Pending(stack, MAX_JSON_VALUE_NODES - visitedNodes) == whole
      decreases MAX_JSON_VALUE_NODES - visitedNodes, Weight(stack)
    {
      var top, below := stack[|stack| - 1], stack[..|stack| - 1];
      ghost var left := MAX_JSON_VALUE_NODES - visitedNodes;
      assert below + [top] == stack;
      PendingTop(below, top, left);
      match top {
        case Enter(current, depth) =>
          visitedNodes := visitedNodes + 1;
          Entered(below, current, depth, left);
          if current.Text? {
            assert strings + ([current.text] + Pending(below, left - 1)) == strings + [current.text] + Pending(below, left - 1);
            strings, stack := strings + [current.text], below;
          } else if current.Leaf? || depth >= MAX_JSON_VALUE_DEPTH {
            stack := below;
          } else {
            stack := below + [Children(current.children, depth)];
          }
        case Children(rest, depth) =>
          if rest == [] {
            assert [] + Pending(below, left) == Pending(below, left);
            stack := below;
          } else {
            TakeChild(below, rest, depth, left);
            stack := below + [Children(rest[1..], depth)] + [Enter(rest[0], depth + 1)];
          }
      }
    }
    if stack == [] {
      NothingPending(MAX_JSON_VALUE_NODES - visitedNodes);
    } else {
      PendingNone(stack);
    }
    assert strings + [] == strings;
  }

  lemma NothingPending(left: nat)
    ensures Pending([], left) == []
  {
  }

  /** What entering a value leaves on the stack. */
  lemma Entered(below: seq<StackFrame>, value: Tree, depth: nat, left: nat)
    requires left > 0
    ensures Pending(below + [Enter(value, depth)], left)
         == if value.Text? then [value.text] + Pending(below, left - 1)
            else if value.Leaf? || depth >= MAX_JSON_VALUE_DEPTH then Pending(below, left - 1)
            else Pending(below + [Children(value.children, depth)], left - 1)
  {
    hide Pending;
    PendingTop(below, Enter(value, depth), left);
    assert [] + Pending(below, left - 1) == Pending(below, left - 1);
    if value.Branch? {
      PendingTop(below, Children(value.children, depth), left - 1);
    }
  }

  // -------------------------------------------------------------- nothing is missed

  /** The bounded visit gathers a beginning of the strings, all of them when the nodes
      suffice. */
  lemma {:induction false} CollectIsPrefix(value: Tree, depth: nat, left: nat)
    ensures var (strings, after) := Collect(value, depth, left);
            && strings <= Shallow(value, depth) && after <= left
            && (Nodes(value) <= left ==> strings == Shallow(value, depth) && left <= after + Nodes(value))
            && (strings != Shallow(value, depth) ==> after == 0)
    decreases value
  {
    if value.Branch? && left > 0 && depth < MAX_JSON_VALUE_DEPTH {
      CollectAllIsPrefix(value.children, depth + 1, left - 1);
    }
  }

  lemma {:induction false} CollectAllIsPrefix(values: seq<Tree>, depth: nat, left: nat)
    ensures var (strings, after) := CollectAll(values, depth, left);
            && strings <= ShallowAll(values, depth) && after <= left
            && (NodesOf(values) <= left ==> strings == ShallowAll(values, depth) && left <= after + NodesOf(values))
            && (strings != ShallowAll(values, depth) ==> after == 0)
    decreases values
  {
    if values != [] {
      CollectIsPrefix(values[0], depth, left);
      var (first, mid) := Collect(values[0], depth, left);
      CollectAllIsPrefix(values[1..], depth, mid);
      if mid == 0 {
        CollectNone(values[1..], depth);
        assert first + [] == first;
      }
    }
  }
}
