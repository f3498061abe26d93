/**
  Lexical normalisation of paths: what `normalize_path` makes of `.` and `..` without looking at the
  file system, compared with walking the components in a tree that has no symbolic links.
*/
module PathNorm {
  import opened Wrappers
  import opened Text
  import opened Paths

  // ---------------------------------------------------------------- the text of a path

  function ComponentName(component: Component): string {
    match component
    case RootDir => ""
    case CurDir => "."
    case ParentDir => ".."
    case Normal(name) => name
  }

  function Names(components: seq<Component>): seq<string> {
    seq(|components|, i requires 0 <= i < |components| => ComponentName(components[i]))
  }

  function Render(components: seq<Component>): string {
    if components == [] then "."
    else if components[0].RootDir? then "/" + Join(Names(components[1..]), '/')
    else Join(Names(components), '/')
  }

  /** A name that can be a component: neither empty nor special, and without a separator. */
  predicate IsName(name: string) {
    name != "" && name != "." && name != ".." && '/' !in name
  }

  predicate HasProperNames(components: seq<Component>) {
    forall i :: 0 <= i < |components| && components[i].Normal? ==> IsName(components[i].name)
  }

  lemma {:induction false} PartComponentsAreProper(parts: seq<string>)
    requires forall i :: 0 <= i < |parts| ==> '/' !in parts[i]
    ensures HasProperNames(PartComponents(parts))
    ensures forall i :: 0 <= i < |PartComponents(parts)| ==>
              PartComponents(parts)[i].ParentDir? || PartComponents(parts)[i].Normal?
  {
    if parts != [] {
      PartComponentsAreProper(parts[1..]);
    }
  }

  // ---------------------------------------------------------------- normalisation

  /** `PathBuf::pop`: the root and the empty path have no parent; `..` does. */
  function Pop(stack: seq<Component>): Option<seq<Component>> {
    if stack == [] || stack[|stack| - 1].RootDir? then None else Some(stack[..|stack| - 1])
  }

  function NormalizeStep(stack: seq<Component>, component: Component, absolute: bool): seq<Component> {
    match component
    case RootDir => [RootDir]
    case CurDir => stack
    case ParentDir =>
      (match Pop(stack)
       case Some(popped) => popped
       case None => if absolute then stack else stack + [ParentDir])
    case Normal(_) => stack + [component]
  }

  function NormalizedStack(components: seq<Component>, absolute: bool): seq<Component> {
    if components == [] then []
    else
      var n := |components| - 1;
      NormalizeStep(NormalizedStack(components[..n], absolute), components[n], absolute)
  }

  function Normalized(path: string): string {
    Render(NormalizedStack(Components(path), IsAbsolute(path)))
  }

  /** `normalize_path` */
  method NormalizePath(path: string) returns (normalized: string)
    ensures normalized == Normalized(path)
  {
    var components := Components(path);
    var stack: seq<Component> := [];
    for i := 0 to |components|
      invariant stack == NormalizedStack(components[..i], IsAbsolute(path))
    {
      assert components[..i + 1][..i] == components[..i];
      match components[i] {
        case RootDir => stack := [RootDir];
        case CurDir =>
        case ParentDir =>
          var popped := Pop(stack);
          if popped.Some? {
            stack := popped.value;
          } else if !IsAbsolute(path) {
            stack := stack + [ParentDir];
          }
        case Normal(_) => stack := stack + [components[i]];
      }
    }
    assert components[..|components|] == components;
    normalized := Render(stack);
  }

  /** Everything after the first component is a name; the first is the root exactly for absolute paths. */
  predicate IsNormalForm(stack: seq<Component>, absolute: bool) {
    && HasProperNames(stack)
    && (absolute ==> stack != [] && stack[0].RootDir?)
    && (!absolute && stack != [] ==> stack[0].ParentDir? || stack[0].Normal?)
    && forall i :: 1 <= i < |stack| ==> stack[i].Normal?
  }

  /** What `components` gives: names are proper, and only the first can be the root or `.`. */
  predicate AreComponents(components: seq<Component>, absolute: bool) {
    && HasProperNames(components)
    && (absolute ==> components != [] && components[0].RootDir?)
    && (!absolute ==> forall i :: 0 <= i < |components| ==> !components[i].RootDir?)
    && forall i :: 1 <= i < |components| ==> components[i].ParentDir? || components[i].Normal?
  }

  lemma ComponentsOfText(path: string)
    ensures AreComponents(Components(path), IsAbsolute(path))
  {
    PartComponentsAreProper(Split(path, '/'));
  }

  lemma {:induction false} StackIsNormalForm(components: seq<Component>, absolute: bool)
    requires AreComponents(components, absolute)
    ensures IsNormalForm(NormalizedStack(components, absolute), absolute)
  {
    if |components| > 1 || (|components| == 1 && !absolute) {
      var n := |components| - 1;
      StackIsNormalForm(components[..n], absolute);
    } else if components != [] {
      assert NormalizedStack(components[..0], absolute) == [];
    }
  }

  /** Normalising a normal form leaves it alone. */
  lemma {:induction false} NormalFormIsFixed(stack: seq<Component>, absolute: bool)
    requires IsNormalForm(stack, absolute)
    ensures NormalizedStack(stack, absolute) == stack
  {
    if stack != [] {
      var n := |stack| - 1;
      if n > 0 || !absolute {
        NormalFormIsFixed(stack[..n], absolute);
        assert stack[..n] + [stack[n]] == stack;
      }
    }
  }

  /** The parts of a rendered normal form are its components again. */
  lemma {:induction false} PartsOfNames(components: seq<Component>)
    requires HasProperNames(components)
    requires forall i :: 0 <= i < |components| ==> components[i].ParentDir? || components[i].Normal?
    ensures PartComponents(Names(components)) == components
  {
    if components != [] {
      PartsOfNames(components[1..]);
      assert Names(components)[1..] == Names(components[1..]);
    }
  }

  lemma SplitOfNames(components: seq<Component>)
    requires HasProperNames(components) && components != []
    requires forall i :: 0 <= i < |components| ==> components[i].ParentDir? || components[i].Normal?
    ensures Split(Join(Names(components), '/'), '/') == Names(components)
    ensures Join(Names(components), '/') != "" && Join(Names(components), '/')[0] != '/'
  {
    SplitJoin(Names(components), '/');
    assert Names(components)[0] == ComponentName(components[0]);
    assert '/' !in Names(components)[0];
  }

  /** Reading a rendered normal form gives it back, except that nothing at all is written as a dot. */
  lemma ComponentsOfRendered(stack: seq<Component>, absolute: bool)
    requires IsNormalForm(stack, absolute)
    ensures IsAbsolute(Render(stack)) <==> absolute
    ensures Components(Render(stack)) == if stack == [] then [CurDir] else stack
  {
    if stack == [] {
      SplitOfPart(".", '/');
      assert PartComponents([]) == [];
    } else if absolute {
      var names := Names(stack[1..]);
      var text := Render(stack);
      assert text == "" + ['/'] + Join(names, '/');
      SplitOfPartThen("", Join(names, '/'), '/');
      PartsOfNames(stack[1..]);
      if stack[1..] != [] {
        SplitOfNames(stack[1..]);
      } else {
        assert Split("", '/') == [""];
        assert PartComponents([""]) == PartComponents([]);
      }
      assert PartComponents([""] + Split(Join(names, '/'), '/')) == PartComponents(Split(Join(names, '/'), '/'));
      assert [RootDir] + stack[1..] == stack;
    } else {
      SplitOfNames(stack);
      PartsOfNames(stack);
      assert Names(stack)[0] == ComponentName(stack[0]);
    }
  }

  /** Normalising twice is normalising once, for every path. */
  lemma NormalizingIsIdempotent(path: string)
    ensures Normalized(Normalized(path)) == Normalized(path)
    ensures IsAbsolute(Normalized(path)) <==> IsAbsolute(path)
  {
    var absolute := IsAbsolute(path);
    var stack := NormalizedStack(Components(path), absolute);
    ComponentsOfText(path);
    StackIsNormalForm(Components(path), absolute);
    ComponentsOfRendered(stack, absolute);
    NormalFormIsFixed(stack, absolute);
    if stack == [] {
      assert [CurDir][..0] == [];
      assert NormalizedStack([CurDir], absolute) == [];
    }
  }

  /** A normalised absolute path has neither `.` nor `..` among its components. */
  lemma AbsoluteHasNoDots(path: string)
    requires IsAbsolute(path)
    ensures var components := Components(Normalized(path));
            && components != [] && components[0] == RootDir
            && forall i :: 1 <= i < |components| ==> components[i].Normal? && IsName(components[i].name)
  {
    ComponentsOfText(path);
    StackIsNormalForm(Components(path), true);
    ComponentsOfRendered(NormalizedStack(Components(path), true), true);
  }

  // ---------------------------------------------------------------- walking a tree

  /** Directories without symbolic links: every node has one parent, and the root is its own. */
  datatype Tree<!Node> = Tree(root: Node, child: (Node, string) -> Option<Node>, parent: Node -> Node)

  ghost predicate IsTree<Node(!new)>(tree: Tree<Node>) {
    && tree.parent(tree.root) == tree.root
    && forall node, name :: tree.child(node, name).Some? ==> tree.parent(tree.child(node, name).value) == node
  }

  /** The node that the components lead to from `start`, unless a name is missing. */
  function Walk<Node>(tree: Tree<Node>, start: Node, components: seq<Component>): Option<Node> {
    if components == [] then Some(start)
    else
      var n := |components| - 1;
      match Walk(tree, start, components[..n])
      case None => None
      case Some(node) =>
        match components[n]
        case RootDir => Some(tree.root)
        case CurDir => Some(node)
        case ParentDir => Some(tree.parent(node))
        case Normal(name) => tree.child(node, name)
  }

  lemma WalkOneMore<Node>(tree: Tree<Node>, start: Node, front: seq<Component>, last: Component)
    requires Walk(tree, start, front).Some?
    ensures Walk(tree, start, front + [last]) ==
            match last
            case RootDir => Some(tree.root)
            case CurDir => Walk(tree, start, front)
            case ParentDir => Some(tree.parent(Walk(tree, start, front).value))
            case Normal(name) => tree.child(Walk(tree, start, front).value, name)
  {
    assert (front + [last])[..|front|] == front;
  }

  /** How far below the start a path leads, if every `..` takes one step up. */
  function Depth(components: seq<Component>): int {
    if components == [] then 0
    else
      var n := |components| - 1;
      Depth(components[..n]) + match components[n] { case ParentDir => -1 case Normal(_) => 1 case _ => 0 }
  }

  /** The path never climbs more than one step above its start. */
  predicate NeverTwoAbove(components: seq<Component>) {
    forall k :: 0 <= k <= |components| ==> Depth(components[..k]) >= -1
  }

  lemma PrefixStaysClose(components: seq<Component>)
    requires components != [] && NeverTwoAbove(components)
    ensures NeverTwoAbove(components[..|components| - 1])
  {
    var front := components[..|components| - 1];
    forall k | 0 <= k <= |front| ensures Depth(front[..k]) >= -1 {
      assert front[..k] == components[..k];
    }
  }

  /** A normal form of a relative path is at least one step above its start, and there only if it is `..`. */
  lemma {:induction false} DepthOfNormalForm(stack: seq<Component>)
    requires IsNormalForm(stack, false)
    ensures Depth(stack) == |stack| - if stack != [] && stack[0].ParentDir? then 2 else 0
  {
    if stack != [] {
      DepthOfNormalForm(stack[..|stack| - 1]);
    }
  }

  lemma DepthOneMore(front: seq<Component>, last: Component)
    ensures Depth(front + [last]) ==
            Depth(front) + match last { case ParentDir => -1 case Normal(_) => 1 case _ => 0 }
  {
    assert (front + [last])[..|front|] == front;
  }

  /** Normalising never loses height, and gains it exactly if `..` was taken off `..`. */
  lemma {:induction false} DepthOfNormalized(components: seq<Component>)
    requires AreComponents(components, false)
    ensures Depth(NormalizedStack(components, false)) >= Depth(components)
    ensures Depth(NormalizedStack(components, false)) == Depth(components) <==> NeverTwoAbove(components)
  {
    if components == [] {
      assert components[..0] == components;
    } else {
      var n := |components| - 1;
      var front, last := components[..n], components[n];
      assert front + [last] == components;
      DepthOfNormalized(front);
      StackIsNormalForm(front, false);
      var stack := NormalizedStack(front, false);
      NeverTwoAboveOneMore(front, last);
      DepthOneMore(front, last);
      DepthOfNormalForm(stack);
      hide HasProperNames, NeverTwoAbove;
      match last {
        case ParentDir =>
          if stack != [] {
            DepthOfNormalForm(stack[..|stack| - 1]) by {
              PopIsNormalForm(stack);
            }
          } else {
            DepthOneMore(stack, ParentDir);
          }
        case Normal(_) => DepthOneMore(stack, last);
        case CurDir =>
      }
    }
  }

  lemma PopIsNormalForm(stack: seq<Component>)
    requires stack != [] && IsNormalForm(stack, false)
    ensures IsNormalForm(stack[..|stack| - 1], false)
  {
  }

  lemma NeverTwoAboveOneMore(front: seq<Component>, last: Component)
    ensures NeverTwoAbove(front + [last]) <==> NeverTwoAbove(front) && Depth(front + [last]) >= -1
  {
    var all := front + [last];
    forall k | 0 <= k <= |front| ensures all[..k] == front[..k] {}
    assert all[..|all|] == all;
  }

  /** In every tree, a step of the walk and a step of the normalisation stay at the same node. */
  lemma WalkStep<Node(!new)>(tree: Tree<Node>, start: Node, stack: seq<Component>, last: Component, absolute: bool)
    requires IsTree(tree) && Walk(tree, start, stack).Some?
    requires IsNormalForm(stack, absolute) && (absolute ==> stack != [])
    requires !last.RootDir?
    requires last.ParentDir? && !absolute ==> stack != [ParentDir]
    ensures var node := Walk(tree, start, stack).value;
            var reached := match last
                           case RootDir => Some(tree.root)
                           case CurDir => Some(node)
                           case ParentDir => Some(tree.parent(node))
                           case Normal(name) => tree.child(node, name);
            reached.Some? ==> Walk(tree, start, NormalizeStep(stack, last, absolute)) == reached
  {
    match last {
      case CurDir =>
      case Normal(_) => WalkOneMore(tree, start, stack, last);
      case ParentDir =>
        if Pop(stack).None? {
          if absolute {
            assert stack == [RootDir];
            assert Walk(tree, start, [RootDir][..0]) == Some(start);
          } else {
            WalkOneMore(tree, start, stack, ParentDir);
          }
        } else {
          var n := |stack| - 1;
          assert stack[..n] + [stack[n]] == stack;
          assert stack[n].Normal?;
        }
    }
  }

  /**
    A normalised absolute path denotes the node that walking the original leads to, in every tree
    without symbolic links whose root is its own parent.
  */
  lemma {:induction false} AbsoluteDenotesSameNode<Node(!new)>(tree: Tree<Node>, start: Node,
                                                               components: seq<Component>)
    requires IsTree(tree) && AreComponents(components, true)
    requires Walk(tree, start, components).Some?
    ensures Walk(tree, start, NormalizedStack(components, true)) == Walk(tree, start, components)
  {
    var n := |components| - 1;
    if n == 0 {
      assert components == [RootDir];
      assert NormalizedStack([RootDir][..0], true) == [];
    } else {
      AbsoluteDenotesSameNode(tree, start, components[..n]);
      StackIsNormalForm(components[..n], true);
      WalkStep(tree, start, NormalizedStack(components[..n], true), components[n], true);
    }
  }

  /** The same on the text of paths. */
  lemma NormalizedPathDenotesSameNode<Node(!new)>(tree: Tree<Node>, start: Node, path: string)
    requires IsTree(tree) && IsAbsolute(path) && Walk(tree, start, Components(path)).Some?
    ensures Walk(tree, start, Components(Normalized(path))) == Walk(tree, start, Components(path))
  {
    ComponentsOfText(path);
    StackIsNormalForm(Components(path), true);
    ComponentsOfRendered(NormalizedStack(Components(path), true), true);
    AbsoluteDenotesSameNode(tree, start, Components(path));
  }

  /** A relative path keeps its node too, in every tree, if it never climbs two steps above its start. */
  lemma {:induction false} RelativeDenotesSameNode<Node(!new)>(tree: Tree<Node>, start: Node,
                                                               components: seq<Component>)
    requires IsTree(tree) && AreComponents(components, false) && NeverTwoAbove(components)
    requires Walk(tree, start, components).Some?
    ensures Walk(tree, start, NormalizedStack(components, false)) == Walk(tree, start, components)
  {
    if components != [] {
      var n := |components| - 1;
      var front, last := components[..n], components[n];
      PrefixStaysClose(components);
      RelativeDenotesSameNode(tree, start, front);
      StackIsNormalForm(front, false);
      DepthOfNormalized(front);
      assert components[..|components|] == components && Depth(components) >= -1;
      var stack := NormalizedStack(front, false);
      DepthOfNormalForm(stack);
      hide NeverTwoAbove;
      WalkStep(tree, start, stack, last, false);
    }
  }

  /** The tree of all lists of names. */
  function AllNames(): Tree<seq<string>> {
    Tree([],
         (node: seq<string>, name: string) => Some(node + [name]),
         (node: seq<string>) => if node == [] then [] else node[..|node| - 1])
  }

  lemma AllNamesIsTree()
    ensures IsTree(AllNames())
  {
  }

  /** From a start that is deep enough, the length of the walk tells the depth of the path. */
  lemma {:induction false} WalkMeasuresDepth(start: seq<string>, components: seq<Component>)
    requires |start| >= |components|
    requires forall i :: 0 <= i < |components| ==> !components[i].RootDir?
    ensures Walk(AllNames(), start, components).Some?
    ensures |Walk(AllNames(), start, components).value| == |start| + Depth(components)
    ensures Depth(components) >= -|components|
  {
    if components != [] {
      WalkMeasuresDepth(start, components[..|components| - 1]);
    }
  }

  lemma {:induction false} StackIsShort(components: seq<Component>)
    requires AreComponents(components, false)
    ensures |NormalizedStack(components, false)| <= |components|
  {
    if components != [] {
      StackIsShort(components[..|components| - 1]);
    }
  }

  /**
    For relative paths the condition is exact: normalising keeps the node, wherever one starts, if and
    only if the path never climbs two steps above its start. `../..` is the shortest that does.
  */
  lemma RelativeDenotesSameNodeIff(components: seq<Component>)
    requires AreComponents(components, false)
    ensures NeverTwoAbove(components) <==>
              forall start :: Walk(AllNames(), start, NormalizedStack(components, false))
                              == Walk(AllNames(), start, components)
  {
    var stack := NormalizedStack(components, false);
    StackIsNormalForm(components, false);
    if NeverTwoAbove(components) {
      AllNamesIsTree();
      forall start ensures Walk(AllNames(), start, stack) == Walk(AllNames(), start, components) {
        AllNamesHasEverything(start, components);
        RelativeDenotesSameNode(AllNames(), start, components);
      }
    } else {
      var start := seq(|components|, i => "x");
      StackIsShort(components);
      DepthOfNormalized(components);
      WalkMeasuresDepth(start, components);
      WalkMeasuresDepth(start, stack);
      assert Walk(AllNames(), start, stack) != Walk(AllNames(), start, components);
    }
  }

  lemma {:induction false} AllNamesHasEverything(start: seq<string>, components: seq<Component>)
    ensures Walk(AllNames(), start, components).Some?
  {
    if components != [] {
      AllNamesHasEverything(start, components[..|components| - 1]);
    }
  }

  /** The shortest such path, as text. */
  lemma TwoStepsUpCollapse()
    ensures Normalized("../..") == "."
  {
    SplitOfPart("..", '/');
    SplitOfPartThen("..", "..", '/');
    assert "../.." == ".." + ['/'] + "..";
    assert Split("../..", '/') == ["..", ".."];
    var components := Components("../..");
    assert PartComponents(["..", ".."]) == [ParentDir] + PartComponents([".."]);
    assert PartComponents([".."]) == [ParentDir] + PartComponents([]);
    assert components == [ParentDir, ParentDir];
    assert components[..1] == [ParentDir] && components[..1][..0] == [];
    assert NormalizedStack(components[..1], false) == [ParentDir];
  }

  lemma {:induction false} WalkConcat<Node>(tree: Tree<Node>, start: Node, front: seq<Component>,
                                            back: seq<Component>)
    requires Walk(tree, start, front).Some?
    ensures Walk(tree, start, front + back) == Walk(tree, Walk(tree, start, front).value, back)
  {
    if back == [] {
      assert front + back == front;
    } else {
      var n := |back| - 1;
      assert (front + back)[..|front| + n] == front + back[..n];
      WalkConcat(tree, start, front, back[..n]);
    }
  }

  // ---------------------------------------------------------------- the text, part by part

  /** How a path is resolved: an empty part and `.` stay where they are, `..` goes to the parent. */
  function ResolveParts<Node>(tree: Tree<Node>, start: Node, parts: seq<string>): Option<Node> {
    if parts == [] then Some(start)
    else
      var n := |parts| - 1;
      match ResolveParts(tree, start, parts[..n])
      case None => None
      case Some(node) =>
        if parts[n] == "" || parts[n] == "." then Some(node)
        else if parts[n] == ".." then Some(tree.parent(node))
        else tree.child(node, parts[n])
  }

  function Resolve<Node>(tree: Tree<Node>, start: Node, path: string): Option<Node> {
    ResolveParts(tree, if path != "" && path[0] == '/' then tree.root else start, Split(path, '/'))
  }

  lemma {:induction false} PartComponentsAppend(a: seq<string>, b: seq<string>)
    ensures PartComponents(a + b) == PartComponents(a) + PartComponents(b)
  {
    if a == [] {
      assert a + b == b;
    } else {
      PartComponentsAppend(a[1..], b);
      assert (a + b)[1..] == a[1..] + b;
    }
  }

  lemma ComponentOfPart(part: string)
    ensures PartComponents([part]) == if part == "" || part == "." then []
                                      else if part == ".." then [ParentDir] else [Normal(part)]
  {
    assert PartComponents([part][1..]) == [];
  }

  lemma {:induction false} WalkOfParts<Node>(tree: Tree<Node>, start: Node, parts: seq<string>)
    ensures Walk(tree, start, PartComponents(parts)) == ResolveParts(tree, start, parts)
  {
    if parts != [] {
      var n := |parts| - 1;
      var front, last := PartComponents(parts[..n]), PartComponents([parts[n]]);
      WalkOfParts(tree, start, parts[..n]);
      assert parts == parts[..n] + [parts[n]];
      PartComponentsAppend(parts[..n], [parts[n]]);
      ComponentOfPart(parts[n]);
      hide PartComponents;
      if last == [] {
        assert front + last == front;
      } else {
        assert (front + last)[..|front|] == front && (front + last)[|front|] == last[0];
      }
    }
  }

  /** Walking the components of a path is resolving its text. */
  lemma ComponentsResolve<Node>(tree: Tree<Node>, start: Node, path: string)
    ensures Walk(tree, start, Components(path)) == Resolve(tree, start, path)
  {
    var parts := Split(path, '/');
    hide PartComponents, Split;
    if IsAbsolute(path) {
      WalkAfterFirst(tree, start, tree.root, RootDir, PartComponents(parts));
      WalkOfParts(tree, tree.root, parts);
    } else {
      WalkAfterFirst(tree, start, start, CurDir, PartComponents(parts));
      WalkOfParts(tree, start, parts);
    }
  }

  lemma WalkAfterFirst<Node>(tree: Tree<Node>, start: Node, node: Node, first: Component, rest: seq<Component>)
    requires (first == RootDir && node == tree.root) || (first == CurDir && node == start)
    ensures Walk(tree, start, [first] + rest) == Walk(tree, node, rest)
  {
    assert Walk(tree, start, [first][..0]) == Some(start);
    assert Walk(tree, start, [first]) == Some(node);
    WalkConcat(tree, start, [first], rest);
  }

  /**
    Normalisation on text alone: an absolute path resolves to the same node afterwards, and a relative
    one does if it never climbs two steps above its start.
  */
  lemma NormalizedResolvesAlike<Node(!new)>(tree: Tree<Node>, start: Node, path: string)
    requires IsTree(tree) && Resolve(tree, start, path).Some?
    requires IsAbsolute(path) || NeverTwoAbove(Components(path))
    ensures Resolve(tree, start, Normalized(path)) == Resolve(tree, start, path)
  {
    ComponentsResolve(tree, start, path);
    ComponentsResolve(tree, start, Normalized(path));
    ComponentsOfText(path);
    hide Resolve, Components, IsTree;
    if IsAbsolute(path) {
      NormalizedPathDenotesSameNode(tree, start, path);
    } else {
      NormalizedRelative(tree, start, path);
    }
  }

  lemma NormalizedRelative<Node(!new)>(tree: Tree<Node>, start: Node, path: string)
    requires IsTree(tree) && !IsAbsolute(path) && NeverTwoAbove(Components(path))
    requires Walk(tree, start, Components(path)).Some?
    ensures Walk(tree, start, Components(Normalized(path))) == Walk(tree, start, Components(path))
  {
    var stack := NormalizedStack(Components(path), false);
    ComponentsOfText(path);
    StackIsNormalForm(Components(path), false);
    ComponentsOfRendered(stack, false);
    hide IsTree, Components, Render;
    RelativeDenotesSameNode(tree, start, Components(path));
    if stack == [] {
      WalkAfterFirst(tree, start, start, CurDir, []);
      assert [CurDir] + [] == [CurDir];
    }
  }

  // ---------------------------------------------------------------- one symbolic link

  /** `expanded_symlink_path`: the rest of the path after the link, appended to the target of the link. */
  function ExpandedSymlinkPath(path: seq<Component>, ancestor: seq<Component>, target: seq<Component>)
    : seq<Component>
  {
    if ancestor <= path && path != ancestor then target + path[|ancestor|..] else target
  }

  /**
    Where a step may follow symbolic links, too: if the link and its target lead to the same node, the
    path through the link and the expanded path do.
  */
  lemma ExpansionDenotesSameNode<Node>(tree: Tree<Node>, start: Node, path: seq<Component>,
                                       ancestor: seq<Component>, target: seq<Component>)
    requires ancestor <= path && Walk(tree, start, ancestor).Some?
    requires Walk(tree, start, target) == Walk(tree, start, ancestor)
    ensures Walk(tree, start, ExpandedSymlinkPath(path, ancestor, target)) == Walk(tree, start, path)
  {
    var rest := path[|ancestor|..];
    assert path == ancestor + rest;
    WalkConcat(tree, start, ancestor, rest);
    WalkConcat(tree, start, target, rest);
  }
}
