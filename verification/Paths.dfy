/** Lexical paths: their components, and containment by whole components. */
module Paths {
  import opened Text

  datatype Component = RootDir | CurDir | ParentDir | Normal(name: string)

  /** The components after the first separator: empty parts and `.` are skipped. */
  function PartComponents(parts: seq<string>): seq<Component> {
    if parts == [] then []
    else if parts[0] == "" || parts[0] == "." then PartComponents(parts[1..])
    else [if parts[0] == ".." then ParentDir else Normal(parts[0])] + PartComponents(parts[1..])
  }

  predicate IsAbsolute(path: string) {
    path != [] && path[0] == '/'
  }

  /** `Path::components`: a leading `.` of a relative path is kept. */
  function Components(path: string): seq<Component> {
    var parts := Split(path, '/');
    if IsAbsolute(path) then [RootDir] + PartComponents(parts)
    else if parts[0] == "." then [CurDir] + PartComponents(parts)
    else PartComponents(parts)
  }

  /** `path_is_or_descendant`: whole components, so a sibling with a longer name is not inside. */
  predicate IsOrDescendant(path: string, root: string) {
    Components(root) <= Components(path)
  }

  /** The text of a canonical path: the root, or names after single separators. */
  predicate IsCanonical(path: string) {
    IsAbsolute(path) && (path == "/" || AreNames(Split(path[1..], '/')))
  }

  predicate AreNames(parts: seq<string>) {
    forall i :: 0 <= i < |parts| ==> parts[i] != "" && parts[i] != "." && parts[i] != ".."
  }

  function NormalsOf(names: seq<string>): seq<Component> {
    seq(|names|, i requires 0 <= i < |names| => Normal(names[i]))
  }

  /** The names of a canonical path. */
  function NamesOf(path: string): seq<string>
    requires IsCanonical(path)
  {
    if path == "/" then [] else Split(path[1..], '/')
  }

  lemma {:induction false} PartsOfNames(names: seq<string>)
    requires AreNames(names)
    ensures PartComponents(names) == NormalsOf(names)
  {
    if names != [] {
      PartsOfNames(names[1..]);
      assert NormalsOf(names) == [Normal(names[0])] + NormalsOf(names[1..]);
    }
  }

  lemma ComponentsOfCanonical(path: string)
    requires IsCanonical(path)
    ensures Components(path) == [RootDir] + NormalsOf(NamesOf(path))
  {
    if path == "/" {
      assert Split("/", '/') == ["", ""] by {
        SplitOfPart("", '/');
        assert "/"[1..] == "";
      }
      assert PartComponents(["", ""][1..]) == PartComponents([""]);
      assert PartComponents([""][1..]) == [];
    } else {
      var names := Split(path[1..], '/');
      assert Split(path, '/') == [""] + names;
      assert ([""] + names)[1..] == names;
      PartsOfNames(names);
    }
  }

  lemma PrefixOfNames(names: seq<string>, others: seq<string>)
    ensures [RootDir] + NormalsOf(names) <= [RootDir] + NormalsOf(others) <==> names <= others
  {
    var a, b := [RootDir] + NormalsOf(names), [RootDir] + NormalsOf(others);
    if a <= b {
      forall i | 0 <= i < |names| ensures names[i] == others[i] {
        assert a[i + 1] == b[i + 1];
      }
    }
    if names <= others {
      forall i | 0 <= i < |a| ensures a[i] == b[i] {
        assert i > 0 ==> names[i - 1] == others[i - 1];
      }
    }
  }

  /**
    Containment of canonical paths, said on their text: the same path, anything below the root, or the
    path followed by a separator. A sibling whose name merely begins alike is not inside.
  */
  lemma IsOrDescendantIff(path: string, root: string)
    requires IsCanonical(path) && IsCanonical(root)
    ensures IsOrDescendant(path, root) <==> path == root || root == "/" || root + "/" <= path
  {
    ComponentsOfCanonical(path);
    ComponentsOfCanonical(root);
    hide Components, AreNames, Split, Join;
    PrefixOfNames(NamesOf(root), NamesOf(path));
    if root != "/" && path != "/" {
      TextOfPrefix(path, root);
    } else {
      assert root != "/" ==> |root + "/"| > 1;
      assert root != "/" && path == "/" ==> |NamesOf(root)| >= 1;
    }
  }

  lemma TextOfPrefix(path: string, root: string)
    requires IsCanonical(path) && IsCanonical(root) && root != "/" && path != "/"
    ensures NamesOf(root) <= NamesOf(path) <==> path == root || root + "/" <= path
  {
    NamesGiveText(path, root);
    if root + "/" <= path {
      hide AreNames, Split;
      var rest := path[|root| + 1..];
      assert path[1..] == root[1..] + ['/'] + rest;
      SplitConcat(root[1..], rest, '/');
    }
  }

  lemma NamesGiveText(path: string, root: string)
    requires IsCanonical(path) && IsCanonical(root) && root != "/" && path != "/"
    ensures NamesOf(root) <= NamesOf(path) ==> path == root || root + "/" <= path
  {
    var names, others := NamesOf(root), NamesOf(path);
    JoinSplit(root[1..], '/');
    JoinSplit(path[1..], '/');
    if names <= others {
      JoinOfPrefix(names, others);
      AfterSlash(path, root);
    }
  }

  lemma JoinOfPrefix(names: seq<string>, others: seq<string>)
    requires names != [] && names <= others
    ensures Join(names, '/') == Join(others, '/') || Join(names, '/') + "/" <= Join(others, '/')
  {
    hide Join;
    var more := others[|names|..];
    assert others == names + more;
    if more == [] {
      assert others == names;
    } else {
      JoinConcat(names, more, '/');
    }
  }

  lemma AfterSlash(path: string, root: string)
    requires IsAbsolute(path) && IsAbsolute(root)
    ensures root[1..] == path[1..] ==> root == path
    ensures root[1..] + "/" <= path[1..] ==> root + "/" <= path
  {
    assert root == "/" + root[1..] && path == "/" + path[1..];
    assert (root + "/")[1..] == root[1..] + "/";
  }
}
