/**
 Managed paths, src/service/path_bounds.rs: lexical normalisation, the choice of the managed root, and
 the walk that opens a path below a root one component at a time without following links.
 */
module PathBounds {
  import opened Wrappers

  /// normalize_lexical

  /** The components of a Unix path. */
  datatype Component = RootDir | CurDir | ParentDir | Normal(name: string)

  /** A path as built by `push` and `pop`. */
  datatype Path = Path(absolute: bool, names: seq<string>)

  const SLASH := Path(true, [])

  function Pushed(out: Path, c: Component): Path {
    match c
    case RootDir => SLASH
    case CurDir => out
    case Normal(s) => out.(names := out.names + [s])
    case ParentDir => if out.names == [] then out else out.(names := out.names[..|out.names| - 1])
  }

  function Folded(components: seq<Component>): Path {
    if components == [] then Path(false, [])
    else Pushed(Folded(components[..|components| - 1]), components[|components| - 1])
  }

  function Normalized(components: seq<Component>): Path {
    if Folded(components) == Path(false, []) then SLASH else Folded(components)
  }

  /**
   The names that are left when each `..`, from the last one back, cancels the nearest name before it
   that is not cancelled yet, up to the last root; `ups` are still to cancel.
   */
  function Uncancelled(components: seq<Component>, ups: nat): seq<string>
    decreases |components|
  {
    if components == [] then []
    else
      var front := components[..|components| - 1];
      match components[|components| - 1]
      case RootDir => []
      case CurDir => Uncancelled(front, ups)
      case ParentDir => Uncancelled(front, ups + 1)
      case Normal(s) => if ups > 0 then Uncancelled(front, ups - 1) else Uncancelled(front, 0) + [s]
  }

  function WithoutLast<T>(s: seq<T>, n: nat): seq<T> {
    if n <= |s| then s[..|s| - n] else []
  }

  lemma FoldCancels(components: seq<Component>, ups: nat)
    ensures WithoutLast(Folded(components).names, ups) == Uncancelled(components, ups)
    decreases |components|
  {
  }

  lemma FoldedAbsolute(components: seq<Component>)
    ensures Folded(components).absolute <==> RootDir in components
  {
  }

  /**
   What normalising leaves: the names no `..` cancels, below the root when the path had one or when
   nothing is left of it.
   */
  lemma NormalizedLeaves(components: seq<Component>)
    ensures Normalized(components).names == Uncancelled(components, 0)
    ensures Normalized(components).absolute <==> RootDir in components || Uncancelled(components, 0) == []
  {
    FoldCancels(components, 0);
    FoldedAbsolute(components);
    assert WithoutLast(Folded(components).names, 0) == Folded(components).names;
  }

  method NormalizeLexical(components: seq<Component>) returns (out: Path)
    ensures out == Normalized(components)
    ensures out == Path(RootDir in components || Uncancelled(components, 0) == [], Uncancelled(components, 0))
  {
    NormalizedLeaves(components);
    out := Path(false, []);
    for i := 0 to |components|
      invariant out == Folded(components[..i])
    {
      assert components[..i + 1][..i] == components[..i];
      match components[i] {
        case RootDir => out := SLASH;
        case CurDir =>
        case Normal(s) => out := out.(names := out.names + [s]);
        case ParentDir =>
          if out.names != [] {
            out := out.(names := out.names[..|out.names| - 1]);
          }
      }
    }
    assert components[..|components|] == components;
    if out == Path(false, []) {
      out := SLASH;
    }
  }

  /** The components of a path that is already normal. */
  function ComponentsOf(p: Path): seq<Component> {
    (if p.absolute then [RootDir] else []) + seq(|p.names|, i requires 0 <= i < |p.names| => Normal(p.names[i]))
  }

  lemma {:induction false} NamesFold(p: Path, n: nat)
    requires n <= |p.names|
    ensures var c := ComponentsOf(p); Folded(c[..|c| - |p.names| + n]) == Path(p.absolute, p.names[..n])
  {
    var c := ComponentsOf(p);
    var k := |c| - |p.names|;
    if n == 0 {
      assert p.absolute ==> c[..k] == [RootDir] && [RootDir][..0] == [];
    } else {
      NamesFold(p, n - 1);
      assert c[..k + n][..k + n - 1] == c[..k + n - 1] && c[k + n - 1] == Normal(p.names[n - 1]);
      assert p.names[..n - 1] + [p.names[n - 1]] == p.names[..n];
    }
  }

  lemma FoldOfComponents(p: Path)
    ensures Folded(ComponentsOf(p)) == p
    ensures RootDir in ComponentsOf(p) <==> p.absolute
  {
    var c := ComponentsOf(p);
    NamesFold(p, |p.names|);
    assert c[..|c|] == c && p.names[..|p.names|] == p.names;
    FoldedAbsolute(c);
  }

  /** An absolute path normalises to an absolute one, and what is normal is its own normal form. */
  lemma NormalIsFixed(components: seq<Component>)
    ensures RootDir in components ==> Normalized(components).absolute
    ensures Normalized(ComponentsOf(Normalized(components))) == Normalized(components)
  {
    NormalizedLeaves(components);
    FoldOfComponents(Normalized(components));
  }

  lemma {:induction false} FoldOnward(a: seq<Component>, a': seq<Component>, b: seq<Component>)
    requires Folded(a).names == Folded(a').names
    ensures Folded(a + b).names == Folded(a' + b).names
  {
    if b == [] {
      assert a + b == a && a' + b == a';
    } else {
      var front := b[..|b| - 1];
      FoldOnward(a, a', front);
      assert (a + b)[..|a + b| - 1] == a + front && (a' + b)[..|a' + b| - 1] == a' + front;
    }
  }

  /**
   A path may be normalised piece by piece: what follows a normal form ends at the names it would have
   ended at before, and at the same path exactly when the first piece has a root or a name left, or the
   second piece alone is absolute. Otherwise the first piece, empty, has become the root.
   */
  lemma NormalizedByPieces(a: seq<Component>, b: seq<Component>)
    ensures var whole, pieces := Normalized(a + b), Normalized(ComponentsOf(Normalized(a)) + b);
            && pieces.names == whole.names
            && (pieces == whole <==> RootDir in a || Normalized(a).names != [] || Normalized(b).absolute)
  {
    var c := ComponentsOf(Normalized(a));
    FoldOfComponents(Normalized(a));
    FoldOnward(c, a, b);
    NormalizedLeaves(a);
    NormalizedLeaves(b);
    NormalizedLeaves(a + b);
    NormalizedLeaves(c + b);
    if Normalized(a).names == [] {
      FoldOnward(a, [], b);
      assert [] + b == b;
    }
  }

  /// match_root

  /** A configured root: its components, and the length of its text. */
  datatype Root = Root(names: seq<string>, length: nat)

  predicate IsUnder(candidate: seq<string>, root: Root) {
    root.names <= candidate
  }

  /** The longest root the candidate is under; the first of equals. */
  ghost predicate IsBest(candidate: seq<string>, roots: seq<Root>, i: nat) {
    && i < |roots| && IsUnder(candidate, roots[i])
    && (forall j :: 0 <= j < |roots| && IsUnder(candidate, roots[j]) ==> roots[j].length <= roots[i].length)
    && (forall j :: 0 <= j < i && IsUnder(candidate, roots[j]) ==> roots[j].length < roots[i].length)
  }

  /** A root and what is left of the candidate below it; an error exactly when it is under none. */
  method MatchRoot(candidate: seq<string>, roots: seq<Root>) returns (r: Option<(Root, seq<string>)>)
    ensures r.None? <==> forall i :: 0 <= i < |roots| ==> !(roots[i].names <= candidate)
    ensures r.Some? ==> r.value.0 in roots && forall i :: 0 <= i < |roots| && roots[i].names <= candidate ==> roots[i].length <= r.value.0.length
    ensures r.Some? ==> r.value.0.names + r.value.1 == candidate && exists i: nat :: IsBest(candidate, roots, i) && roots[i] == r.value.0
  {
    var best: Option<nat> := None;
    for i := 0 to |roots|
      invariant best.None? <==> forall j :: 0 <= j < i ==> !IsUnder(candidate, roots[j])
      invariant best.Some? ==> best.value < i && IsBest(candidate, roots[..i], best.value)
    {
      assert forall j :: 0 <= j < i ==> roots[..i + 1][j] == roots[..i][j];
      if IsUnder(candidate, roots[i]) {
        if best.None? || roots[i].length > roots[best.value].length {
          best := Some(i);
        }
      }
    }
    assert roots[..|roots|] == roots;
    if best.None? {
      return None;
    }
    var root := roots[best.value];
    r := Some((root, candidate[|root.names|..]));
  }

  lemma PrefixChain<T>(a: seq<T>, b: seq<T>, c: seq<T>)
    requires a <= c && b <= c && |a| <= |b|
    ensures a <= b
  {
    assert forall i :: 0 <= i < |a| ==> a[i] == c[i] == b[i];
  }

  /** Some root is the best one when any is there at all. */
  lemma {:induction false} BestExists(candidate: seq<string>, roots: seq<Root>, j: nat) returns (i: nat)
    requires j < |roots| && IsUnder(candidate, roots[j])
    ensures IsBest(candidate, roots, i)
  {
    var front, last := roots[..|roots| - 1], roots[|roots| - 1];
    if j < |front| {
      i := BestExists(candidate, front, j);
      if IsUnder(candidate, last) && last.length > roots[i].length {
        i := |front|;
      }
    } else if k :| 0 <= k < |front| && IsUnder(candidate, front[k]) {
      i := BestExists(candidate, front, k);
      if last.length > roots[i].length {
        i := |front|;
      }
    } else {
      i := j;
    }
  }

  /** A root inside another is also there with a longer text, or with one as long that comes first. */
  ghost predicate Telling(roots: seq<Root>) {
    forall i: nat, j: nat :: i < |roots| && j < |roots| ==> Settled(roots, i, j)
  }

  ghost predicate Settled(roots: seq<Root>, i: nat, j: nat)
    requires i < |roots| && j < |roots|
  {
    roots[i].names < roots[j].names ==> exists k: nat :: k < |roots| && Outbids(roots, k, j, i)
  }

  /** Root `k` is `j` in another spelling, perhaps, and is preferred to `i`. */
  predicate Outbids(roots: seq<Root>, k: nat, j: nat, i: nat)
    requires k < |roots| && j < |roots| && i < |roots|
  {
    && roots[k].names == roots[j].names
    && (roots[i].length < roots[k].length || (roots[i].length == roots[k].length && k < i))
  }

  /** Every root that a candidate is under contains the chosen one. */
  ghost predicate Innermost(candidate: seq<string>, roots: seq<Root>) {
    forall i: nat, j: nat :: IsBest(candidate, roots, i) && j < |roots| && IsUnder(candidate, roots[j]) ==>
      roots[j].names <= roots[i].names
  }

  lemma OneContains<T>(a: seq<T>, b: seq<T>, c: seq<T>)
    requires a <= c && b <= c
    ensures a <= b || b < a
  {
    if |a| <= |b| {
      PrefixChain(a, b, c);
    } else {
      PrefixChain(b, a, c);
    }
  }

  lemma NotOutbid(candidate: seq<string>, roots: seq<Root>, i: nat, j: nat, k: nat)
    requires IsBest(candidate, roots, i) && j < |roots| && IsUnder(candidate, roots[j]) && k < |roots|
    ensures !Outbids(roots, k, j, i)
  {
  }

  lemma TellingInnermost(candidate: seq<string>, roots: seq<Root>, i: nat, j: nat)
    requires Telling(roots) && IsBest(candidate, roots, i) && j < |roots| && IsUnder(candidate, roots[j])
    ensures roots[j].names <= roots[i].names
  {
    OneContains(roots[j].names, roots[i].names, candidate);
    if roots[i].names < roots[j].names {
      assert Settled(roots, i, j);
      var k: nat :| k < |roots| && Outbids(roots, k, j, i);
      NotOutbid(candidate, roots, i, j, k);
    }
  }

  /** The longest root is the innermost one, for every candidate, exactly when the texts of the roots tell. */
  lemma BestIsInnermost(roots: seq<Root>)
    ensures Telling(roots) <==> forall candidate :: Innermost(candidate, roots)
  {
    if Telling(roots) {
      forall candidate
        ensures Innermost(candidate, roots)
      {
        forall i: nat, j: nat | IsBest(candidate, roots, i) && j < |roots| && IsUnder(candidate, roots[j])
          ensures roots[j].names <= roots[i].names
        {
          TellingInnermost(candidate, roots, i, j);
        }
      }
    }
    if forall candidate :: Innermost(candidate, roots) {
      forall i: nat, j: nat | i < |roots| && j < |roots| && roots[i].names < roots[j].names
        ensures Settled(roots, i, j)
      {
        var candidate := roots[j].names;
        var k := BestExists(candidate, roots, j);
        assert Innermost(candidate, roots) && IsUnder(candidate, roots[j]) && IsUnder(candidate, roots[i]);
        assert Outbids(roots, k, j, i);
      }
    }
  }

  /** The length of the text a normal path is built with. */
  function TextLength(names: seq<string>): nat {
    if names == [] then 1 else NamesLength(names)
  }

  /** Every name after its slash. */
  function NamesLength(names: seq<string>): nat {
    if names == [] then 0 else NamesLength(names[..|names| - 1]) + 1 + |names[|names| - 1]|
  }

  lemma {:induction false} LongerInside(a: seq<string>, b: seq<string>)
    requires a < b && forall i :: 0 <= i < |b| ==> b[i] != ""
    ensures NamesLength(a) + 2 <= NamesLength(b)
  {
    var front := b[..|b| - 1];
    if a == front {
    } else {
      LongerInside(a, front);
    }
  }

  /** So it is of roots that were normalised, as those of the file API are. */
  lemma NormalRootsTell(roots: seq<Root>)
    requires forall i :: 0 <= i < |roots| ==> roots[i].length == TextLength(roots[i].names) && "" !in roots[i].names
    ensures Telling(roots)
  {
    forall i: nat, j: nat | i < |roots| && j < |roots| && roots[i].names < roots[j].names
      ensures Settled(roots, i, j)
    {
      LongerInside(roots[i].names, roots[j].names);
      assert Outbids(roots, j, j, i);
    }
  }

  /** But not of roots taken as they are spelled, as those of the log API are: a root spelled "/data////////" hides "/data/x". */
  lemma LongSpellingMisleads()
    ensures var roots := [Root(["data"], |"/data////////"|), Root(["data", "x"], |"/data/x"|)];
            IsBest(["data", "x", "file"], roots, 0) && IsUnder(["data", "x", "file"], roots[1]) && !Telling(roots)
  {
    var roots := [Root(["data"], |"/data////////"|), Root(["data", "x"], |"/data/x"|)];
    var candidate := ["data", "x", "file"];
    assert roots[0].names == candidate[..1] && roots[1].names == candidate[..2];
    assert IsBest(candidate, roots, 0);
    if Telling(roots) {
      TellingInnermost(candidate, roots, 0, 1);
    }
  }

  /// The walk below a root

  datatype Node = Directory(entries: map<string, nat>) | RegularFile | Symlink | Special

  type Tree = map<nat, Node>

  datatype OpenError = OpenFailed | RootAsFile | NotRegular

  /** What `openat` without following links opens: an entry of the directory that is no link. */
  function OpenAt(tree: Tree, dir: nat, name: string, directory: bool): Option<nat> {
    if dir !in tree || !tree[dir].Directory? || name !in tree[dir].entries then None
    else
      var i := tree[dir].entries[name];
      if i !in tree || tree[i].Symlink? || (directory && !tree[i].Directory?) then None else Some(i)
  }

  /**
   The walk from the k-th call on; the tree may be another one at every call, but a directory once
   opened is held.
   */
  function Walk(trees: nat -> Tree, k: nat, dir: nat, names: seq<string>, leafDirectory: bool): Result<nat, OpenError>
    requires names != []
    decreases |names|
  {
    var last := |names| == 1;
    match OpenAt(trees(k), dir, names[0], !last || leafDirectory)
    case None => Err(OpenFailed)
    case Some(i) =>
      if !last then Walk(trees, k + 1, i, names[1..], leafDirectory)
      else if !leafDirectory && !trees(k)[i].RegularFile? then Err(NotRegular)
      else Ok(i)
  }

  method OpenBeneath(trees: nat -> Tree, root: nat, names: seq<string>, leafDirectory: bool) returns (r: Result<nat, OpenError>)
    ensures names == [] ==> r == if leafDirectory then Ok(root) else Err(RootAsFile)
    ensures names != [] ==> r == Walk(trees, 0, root, names, leafDirectory)
  {
    if names == [] {
      if leafDirectory {
        return Ok(root);
      }
      return Err(RootAsFile);
    }
    var dir := root;
    var k := 0;
    while k < |names|
      invariant k < |names|
      invariant Walk(trees, 0, root, names, leafDirectory) == Walk(trees, k, dir, names[k..], leafDirectory)
    {
      assert names[k..][1..] == names[k + 1..];
      var isLast := k + 1 == |names|;
      var next := OpenAt(trees(k), dir, names[k], !isLast || leafDirectory);
      if next.None? {
        return Err(OpenFailed);
      }
      if isLast {
        if !leafDirectory && !trees(k)[next.value].RegularFile? {
          return Err(NotRegular);
        }
        return Ok(next.value);
      }
      dir, k := next.value, k + 1;
    }
  }

  /**
   A chain of entries, one for each name: each step from a directory to an entry of it at that moment,
   none of them a link, and the last one of the kind asked for.
   */
  predicate Linked(trees: nat -> Tree, k: nat, dir: nat, names: seq<string>, leafDirectory: bool, chain: seq<nat>)
    decreases |names|
  {
    && |chain| == |names|
    && (names != [] ==>
        && dir in trees(k) && trees(k)[dir].Directory? && names[0] in trees(k)[dir].entries
        && trees(k)[dir].entries[names[0]] == chain[0] && chain[0] in trees(k)
        && (if |names| > 1 || leafDirectory then trees(k)[chain[0]].Directory? else trees(k)[chain[0]].RegularFile?)
        && Linked(trees, k + 1, chain[0], names[1..], leafDirectory, chain[1..]))
  }

  /** The walk opens what a chain of plain entries leads to, whatever is renamed meanwhile. */
  lemma {:induction false} WalkIsChain(trees: nat -> Tree, k: nat, dir: nat, names: seq<string>, leafDirectory: bool)
    returns (chain: seq<nat>)
    requires names != [] && Walk(trees, k, dir, names, leafDirectory).Ok?
    ensures Linked(trees, k, dir, names, leafDirectory, chain)
    ensures chain[|chain| - 1] == Walk(trees, k, dir, names, leafDirectory).value
    decreases |names|
  {
    var i := OpenAt(trees(k), dir, names[0], |names| > 1 || leafDirectory).value;
    if |names| == 1 {
      chain := [i];
    } else {
      var rest := WalkIsChain(trees, k + 1, i, names[1..], leafDirectory);
      chain := [i] + rest;
      assert chain[1..] == rest;
    }
  }

  /** And wherever there is such a chain, the walk opens its end. */
  lemma {:induction false} ChainIsWalked(trees: nat -> Tree, k: nat, dir: nat, names: seq<string>, leafDirectory: bool, chain: seq<nat>)
    requires names != [] && Linked(trees, k, dir, names, leafDirectory, chain)
    ensures Walk(trees, k, dir, names, leafDirectory) == Ok(chain[|chain| - 1])
    decreases |names|
  {
    if |names| > 1 {
      ChainIsWalked(trees, k + 1, chain[0], names[1..], leafDirectory, chain[1..]);
    }
  }
}
