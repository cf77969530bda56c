/** What the directory operations do to trees, stated entry by entry. */
module TreeChanges {
  import opened ReplyParser
  import opened RemoteTree

  // ---------------------------------------------------------------- removal, on trees

  /** From `t0` to `t1` nothing but proper descendants of `p` got lost. */
  ghost predicate OnlyRemovedBelow(t0: Tree, t1: Tree, p: Path) {
    forall q :: At(t1, q) == At(t0, q) || (p < q && At(t1, q) == None)
  }

  /** `t1` is `t0` without the proper descendants of `p`. */
  ghost predicate ClearedBelow(t0: Tree, t1: Tree, p: Path) {
    forall q :: At(t1, q) == if p < q then None else At(t0, q)
  }

  /** `t1` is `t0` without the subtree at `p`. */
  ghost predicate RemovedAt(t0: Tree, t1: Tree, p: Path) {
    forall q :: At(t1, q) == if p <= q then None else At(t0, q)
  }

  /** `q` lies in one of the first `i` listed subtrees of `p`. */
  predicate InListed(p: Path, files: seq<Listed>, i: nat, q: Path)
    requires i <= |files|
  {
    p < q && exists j :: 0 <= j < i && files[j].name == q[|p|]
  }

  ghost function Subtree(t: Tree, p: Path): set<Path> {
    set q | q in t && p <= q
  }

  lemma {:induction false} PrefixIsDir(t: Tree, p: Path, q: Path)
    requires IsTree(t) && q in t && p < q
    ensures IsDir(t, p)
    decreases |q|
  {
    var r := Parent(q);
    assert IsDir(t, r);
    if r != p {
      assert p <= r && p < r;
      PrefixIsDir(t, p, r);
    }
  }

  /** The child of `p` on the way to `q`. */
  lemma ChildToward(t: Tree, p: Path, q: Path) returns (c: Path)
    requires IsTree(t) && q in t && p < q
    ensures c in t && c == p + [q[|p|]] && Parent(c) == p
  {
    c := q[..|p| + 1];
    if c != q { PrefixIsDir(t, c, q); }
  }

  /** Once all listed subtrees are gone, so are all proper descendants. */
  lemma ListedSubtreesAreAll(t: Tree, p: Path, files: seq<Listed>, q: Path)
    requires IsTree(t) && IsListing(t, p, files) && q in t && p < q
    ensures InListed(p, files, |files|, q)
  {
    var c := ChildToward(t, p, q);
    var i :| 0 <= i < |files| && c == p + [files[i].name];
    assert c[|p|] == files[i].name;
  }

  lemma EntryStillThere(t0: Tree, t1: Tree, d: Path, files: seq<Listed>, i: nat)
    requires i < |files| && IsListing(t0, d, files)
    requires forall q :: At(t1, q) == if InListed(d, files, i, q) then None else At(t0, q)
    ensures At(t1, d + [files[i].name]) == Some(files[i].entry)
  {
    var p := d + [files[i].name];
    assert p[|d|] == files[i].name;
    assert !InListed(d, files, i, p);
  }

  lemma NextEntryGone(t0: Tree, t1: Tree, t2: Tree, d: Path, files: seq<Listed>, i: nat)
    requires i < |files|
    requires forall q :: At(t1, q) == if InListed(d, files, i, q) then None else At(t0, q)
    requires RemovedAt(t1, t2, d + [files[i].name])
    ensures forall q :: At(t2, q) == if InListed(d, files, i + 1, q) then None else At(t0, q)
  {
    var p := d + [files[i].name];
    forall q ensures InListed(d, files, i + 1, q) <==> InListed(d, files, i, q) || p <= q {
      if p <= q {
        assert d < q && q[|d|] == files[i].name;
      }
      if d < q && q[|d|] == files[i].name {
        assert p <= q;
      }
    }
  }

  lemma ClearedHasNoChildren(t0: Tree, t1: Tree, p: Path)
    requires ClearedBelow(t0, t1, p)
    ensures NoChildren(t1, p)
  {
    forall q | q in t1 && q != [] ensures Parent(q) != p {
      assert At(t1, q) == if p < q then None else At(t0, q);
    }
  }

  lemma ClearThenRemove(t0: Tree, t1: Tree, t2: Tree, p: Path)
    requires ClearedBelow(t0, t1, p) && p != []
    requires t2 == t1 || t2 == t1 - {p}
    ensures t2 == t1 - {p} ==> RemovedAt(t0, t2, p)
    ensures OnlyRemovedBelow(t0, t2, Parent(p))
  {
    assert Parent(p) < p;
    forall q ensures At(t2, q) == At(t0, q) || (Parent(p) < q && At(t2, q) == None) {
      assert At(t1, q) == if p < q then None else At(t0, q);
      assert p <= q ==> Parent(p) < q;
    }
    if t2 == t1 - {p} {
      forall q ensures At(t2, q) == if p <= q then None else At(t0, q) {
        assert At(t1, q) == if p < q then None else At(t0, q);
        assert p <= q <==> p == q || p < q;
      }
    }
  }

  lemma LeafHasNoDescendants(t: Tree, p: Path)
    requires IsTree(t) && p in t && !t[p].Dir?
    ensures ClearedBelow(t, t, p)
  {
    forall q ensures At(t, q) == if p < q then None else At(t, q) {
      if p < q && q in t { PrefixIsDir(t, p, q); }
    }
  }

  lemma SubtreeShrinks(t0: Tree, t1: Tree, d: Path, p: Path)
    requires IsDir(t0, d) && d <= p
    requires forall q :: At(t1, q) == At(t0, q) || At(t1, q) == None
    ensures Subtree(t1, p) <= Subtree(t0, d)
    ensures d < p ==> Subtree(t1, p) < Subtree(t0, d)
  {
    forall q | q in Subtree(t1, p) ensures q in Subtree(t0, d) {
      assert At(t1, q) == At(t0, q);
    }
    assert d in Subtree(t0, d);
  }

  // ---------------------------------------------------------------- local directories and uploads

  /** `readdir`: each name once, in any order. */
  ghost predicate IsReadDir(l: Tree, p: Path, names: seq<Name>) {
    && (forall i | 0 <= i < |names| :: p + [names[i]] in l)
    && (forall i, j | 0 <= i < j < |names| :: names[i] != names[j])
    && (forall q {:trigger Parent(q)} | q in l && q != [] && Parent(q) == p ::
          exists i :: 0 <= i < |names| && q == p + [names[i]])
  }

  predicate Named(p: Path, names: seq<Name>, q: Path) {
    exists i :: 0 <= i < |names| && q == p + [names[i]]
  }

  lemma NamedSnoc(p: Path, names: seq<Name>, n: Name, q: Path)
    ensures Named(p, names, q) || q == p + [n] ==> Named(p, names + [n], q)
  {
    var more := names + [n];
    if Named(p, names, q) {
      var i :| 0 <= i < |names| && q == p + [names[i]];
      assert more[i] == names[i];
    } else if q == p + [n] {
      assert q == p + [more[|names|]];
    }
  }

  /** The state of the loop below: every entry is named, once, or still to do. */
  ghost predicate ReadSoFar(l: Tree, p: Path, names: seq<Name>, todo: set<Path>) {
    && (forall q | q in todo :: q in l && q != [] && Parent(q) == p)
    && (forall i | 0 <= i < |names| :: p + [names[i]] in l && p + [names[i]] !in todo)
    && (forall i, j | 0 <= i < j < |names| :: names[i] != names[j])
    && (forall q {:trigger Parent(q)} | q in l && q != [] && Parent(q) == p :: q in todo || Named(p, names, q))
  }

  lemma ReadNext(l: Tree, p: Path, names: seq<Name>, todo: set<Path>, n: Name)
    requires ReadSoFar(l, p, names, todo) && p + [n] in todo
    ensures ReadSoFar(l, p, names + [n], todo - {p + [n]})
  {
    var more := names + [n];
    forall i | 0 <= i < |names| ensures more[i] == names[i] && names[i] != n && p + [names[i]] != p + [n] {
      assert p + [names[i]] !in todo;
    }
    forall q | q in l && q != [] && Parent(q) == p ensures q in todo - {p + [n]} || Named(p, more, q) {
      NamedSnoc(p, names, n, q);
    }
  }

  method ReadDir(l: Tree, p: Path) returns (names: seq<Name>)
    ensures IsReadDir(l, p, names)
  {
    names := [];
    var todo := set q | q in l && q != [] && Parent(q) == p;
    while todo != {}
      invariant ReadSoFar(l, p, names, todo)
      decreases todo
    {
      var q :| q in todo;
      var n := q[|q| - 1];
      assert q == p + [n];
      ReadNext(l, p, names, todo, n);
      names := names + [n];
      todo := todo - {q};
    }
    AllRead(l, p, names);
  }

  lemma AllRead(l: Tree, p: Path, names: seq<Name>)
    requires ReadSoFar(l, p, names, {})
    ensures IsReadDir(l, p, names)
  {
    forall q {:trigger Parent(q)} | q in l && q != [] && Parent(q) == p
      ensures exists i :: 0 <= i < |names| && q == p + [names[i]]
    {
      assert Named(p, names, q);
    }
  }

  /** What uploading the local tree at `a` to the remote path `d` puts at the remote path `q`. */
  function Wanted(l: Tree, a: Path, d: Path, q: Path): Option<Entry> {
    if d <= q && a + q[|d|..] in l then
      match l[a + q[|d|..]]
      case Dir => Some(Dir)
      case File(c) => Some(File(c))
      case _ => None
    else None
  }

  /** `q` is one of the places meant by an upload: below `d`, or `d` itself if `whole`. */
  predicate Inside(d: Path, whole: bool, q: Path) {
    d < q || (whole && q == d)
  }

  predicate Agrees(e: Option<Entry>, w: Option<Entry>) {
    e.None? || w.None? || (w.value.Dir? && e.value.Dir?) || (w.value.File? && e.value.File?)
  }

  /** The local tree is put where it agrees with what is there: files over files, directories into
      directories, anything where there is nothing. */
  function MergeAt(t: Tree, l: Tree, a: Path, d: Path, whole: bool, q: Path): Option<Entry> {
    var w := Wanted(l, a, d, q);
    if Inside(d, whole, q) && w.Some? && Agrees(At(t, q), w) then w else At(t, q)
  }

  ghost predicate Merged(t0: Tree, t1: Tree, l: Tree, a: Path, d: Path, whole: bool) {
    forall q :: At(t1, q) == MergeAt(t0, l, a, d, whole, q)
  }

  /** `t1` is `t0` with the local tree laid over it: files replaced, directories merged, all else as
      before. */
  ghost predicate Overlaid(t0: Tree, t1: Tree, l: Tree, a: Path, d: Path, whole: bool) {
    forall q :: At(t1, q) == if Inside(d, whole, q) && Wanted(l, a, d, q).Some? then Wanted(l, a, d, q) else At(t0, q)
  }

  /** A merge is an overlay exactly if no names clash. */
  lemma MergeIsOverlay(t0: Tree, t1: Tree, l: Tree, a: Path, d: Path, whole: bool)
    requires Merged(t0, t1, l, a, d, whole)
    ensures Overlaid(t0, t1, l, a, d, whole) <==> NoClash(t0, l, a, d, whole)
  {
    if Overlaid(t0, t1, l, a, d, whole) {
      forall q | Inside(d, whole, q) ensures Agrees(At(t0, q), Wanted(l, a, d, q)) {
        assert At(t1, q) == MergeAt(t0, l, a, d, whole, q);
      }
    }
    if NoClash(t0, l, a, d, whole) {
      forall q
        ensures At(t1, q) == if Inside(d, whole, q) && Wanted(l, a, d, q).Some? then Wanted(l, a, d, q) else At(t0, q)
      {
        assert At(t1, q) == MergeAt(t0, l, a, d, whole, q);
        if Inside(d, whole, q) { assert Agrees(At(t0, q), Wanted(l, a, d, q)); }
      }
    }
  }

  predicate Partial(e: Option<Entry>, w: Option<Entry>) {
    e.Some? && w.Some? && e.value.File? && w.value.File? && e.value.content <= w.value.content
  }

  /** Each place is as before, or - if that agrees with what was there - as wanted or holding a part
      of the wanted file or, if `gone` allows it, with the file gone. */
  ghost predicate PartlyOverlaid(t0: Tree, t1: Tree, l: Tree, a: Path, d: Path, whole: bool, gone: bool) {
    forall q :: PlaceOk(t0, t1, l, a, d, whole, gone, q)
  }

  predicate PlaceOk(t0: Tree, t1: Tree, l: Tree, a: Path, d: Path, whole: bool, gone: bool, q: Path) {
    || At(t1, q) == At(t0, q)
    || (&& Inside(d, whole, q) && Wanted(l, a, d, q).Some? && Agrees(At(t0, q), Wanted(l, a, d, q))
        && (|| At(t1, q) == Wanted(l, a, d, q)
            || Partial(At(t1, q), Wanted(l, a, d, q))
            || (gone && Wanted(l, a, d, q).value.File? && At(t1, q) == None)))
  }

  /** Such a change never removes a directory. */
  lemma DirsSurvive(t0: Tree, t1: Tree, l: Tree, a: Path, d: Path, whole: bool, gone: bool, q: Path)
    requires PartlyOverlaid(t0, t1, l, a, d, whole, gone) && IsDir(t0, q)
    ensures IsDir(t1, q)
  {
    assert PlaceOk(t0, t1, l, a, d, whole, gone, q);
  }

  /** No file is to be put where there is a directory or link, and no directory where there is a file or link. */
  ghost predicate NoClash(t: Tree, l: Tree, a: Path, d: Path, whole: bool) {
    forall q | Inside(d, whole, q) :: Agrees(At(t, q), Wanted(l, a, d, q))
  }

  // The loop over the names in a local directory.

  predicate InNames(d: Path, names: seq<Name>, i: nat, q: Path)
    requires i <= |names|
  {
    d < q && exists j :: 0 <= j < i && names[j] == q[|d|]
  }

  /** The state of the loop after `i` names. */
  ghost predicate UploadedSoFar(t0: Tree, t1: Tree, l: Tree, a: Path, d: Path, names: seq<Name>, i: nat)
    requires i <= |names|
  {
    forall q :: At(t1, q) == if InNames(d, names, i, q) then MergeAt(t0, l, a, d, false, q) else At(t0, q)
  }

  ghost predicate NoClashSoFar(t0: Tree, l: Tree, a: Path, d: Path, names: seq<Name>, i: nat)
    requires i <= |names|
  {
    forall q | InNames(d, names, i, q) :: Agrees(At(t0, q), Wanted(l, a, d, q))
  }

  /** Places below `d + [n]` are the same for an upload to `d` and for one of the entry `n`. */
  lemma WantedInEntry(l: Tree, a: Path, d: Path, n: Name, q: Path)
    requires d + [n] <= q
    ensures Wanted(l, a + [n], d + [n], q) == Wanted(l, a, d, q)
  {
    assert a + [n] + q[|d| + 1..] == a + q[|d|..];
  }

  lemma InNamesNext(d: Path, names: seq<Name>, i: nat, q: Path)
    requires i < |names|
    ensures InNames(d, names, i + 1, q) <==> InNames(d, names, i, q) || d + [names[i]] <= q
  {
    var p := d + [names[i]];
    if p <= q { assert d < q && q[|d|] == names[i]; }
    if d < q && q[|d|] == names[i] { assert p <= q; }
  }

  lemma EntryNotYet(l: Tree, a: Path, d: Path, names: seq<Name>, i: nat, q: Path)
    requires i < |names| && IsReadDir(l, a, names) && d + [names[i]] <= q
    ensures !InNames(d, names, i, q)
  {
    assert q[|d|] == names[i];
  }

  lemma UploadedNext(t0: Tree, t1: Tree, t2: Tree, l: Tree, a: Path, d: Path, names: seq<Name>, i: nat)
    requires i < |names| && IsReadDir(l, a, names)
    requires UploadedSoFar(t0, t1, l, a, d, names, i)
    requires Merged(t1, t2, l, a + [names[i]], d + [names[i]], true)
    ensures UploadedSoFar(t0, t2, l, a, d, names, i + 1)
  {
    var p := d + [names[i]];
    forall q ensures At(t2, q) == if InNames(d, names, i + 1, q) then MergeAt(t0, l, a, d, false, q) else At(t0, q) {
      InNamesNext(d, names, i, q);
      assert At(t2, q) == MergeAt(t1, l, a + [names[i]], p, true, q);
      assert At(t1, q) == if InNames(d, names, i, q) then MergeAt(t0, l, a, d, false, q) else At(t0, q);
      if p <= q {
        WantedInEntry(l, a, d, names[i], q);
        EntryNotYet(l, a, d, names, i, q);
        assert d < q;
      }
    }
  }

  lemma NoClashNext(t0: Tree, t1: Tree, l: Tree, a: Path, d: Path, names: seq<Name>, i: nat)
    requires i < |names| && IsReadDir(l, a, names)
    requires UploadedSoFar(t0, t1, l, a, d, names, i) && NoClashSoFar(t0, l, a, d, names, i)
    ensures NoClash(t1, l, a + [names[i]], d + [names[i]], true) <==> NoClashSoFar(t0, l, a, d, names, i + 1)
  {
    var p := d + [names[i]];
    forall q ensures InNames(d, names, i + 1, q) <==> InNames(d, names, i, q) || p <= q {
      InNamesNext(d, names, i, q);
    }
    forall q | p <= q ensures At(t1, q) == At(t0, q) && Wanted(l, a + [names[i]], p, q) == Wanted(l, a, d, q) {
      WantedInEntry(l, a, d, names[i], q);
      EntryNotYet(l, a, d, names, i, q);
      assert At(t1, q) == if InNames(d, names, i, q) then MergeAt(t0, l, a, d, false, q) else At(t0, q);
    }
    assert forall q :: p <= q <==> Inside(p, true, q);
  }

  lemma PartlyNext(t0: Tree, t1: Tree, t2: Tree, l: Tree, a: Path, d: Path, names: seq<Name>, i: nat,
                   gone: bool)
    requires i < |names| && IsReadDir(l, a, names)
    requires UploadedSoFar(t0, t1, l, a, d, names, i)
    requires PartlyOverlaid(t1, t2, l, a + [names[i]], d + [names[i]], true, gone)
    ensures PartlyOverlaid(t0, t2, l, a, d, false, gone)
  {
    var p := d + [names[i]];
    forall q ensures PlaceOk(t0, t2, l, a, d, false, gone, q) {
      assert PlaceOk(t1, t2, l, a + [names[i]], p, true, gone, q);
      assert At(t1, q) == if InNames(d, names, i, q) then MergeAt(t0, l, a, d, false, q) else At(t0, q);
      if p <= q {
        WantedInEntry(l, a, d, names[i], q);
        EntryNotYet(l, a, d, names, i, q);
        assert d < q;
      }
    }
  }

  /** All names together cover the whole local directory. */
  lemma AllNamesUploaded(t0: Tree, t1: Tree, l: Tree, a: Path, d: Path, names: seq<Name>)
    requires IsTree(l) && IsReadDir(l, a, names)
    requires UploadedSoFar(t0, t1, l, a, d, names, |names|)
    ensures Merged(t0, t1, l, a, d, false)
  {
    forall q ensures At(t1, q) == MergeAt(t0, l, a, d, false, q) {
      if d < q && Wanted(l, a, d, q).Some? {
        NameOf(l, a, d, names, q);
      }
    }
  }

  lemma AllNamesClash(t0: Tree, l: Tree, a: Path, d: Path, names: seq<Name>)
    requires IsTree(l) && IsReadDir(l, a, names)
    ensures NoClashSoFar(t0, l, a, d, names, |names|) <==> NoClash(t0, l, a, d, false)
  {
    forall q | d < q && Wanted(l, a, d, q).Some? ensures InNames(d, names, |names|, q) {
      NameOf(l, a, d, names, q);
    }
  }

  lemma NameOf(l: Tree, a: Path, d: Path, names: seq<Name>, q: Path)
    requires IsTree(l) && IsReadDir(l, a, names) && d < q && a + q[|d|..] in l
    ensures InNames(d, names, |names|, q)
  {
    var x := a + q[|d|..];
    var c := x[..|a| + 1];
    PrefixIn(l, c, x);
    assert Parent(c) == a;
    var i :| 0 <= i < |names| && c == a + [names[i]];
    assert c[|a|] == names[i] && x[|a|] == q[|d|..][0] == q[|d|];
  }

  lemma PrefixIn(t: Tree, p: Path, q: Path)
    requires IsTree(t) && q in t && p <= q
    ensures p in t && (p != q ==> t[p] == Dir)
  {
    if p != q { PrefixIsDir(t, p, q); }
  }

  lemma SubtreeOfEntry(l: Tree, a: Path, n: Name)
    requires a in l
    ensures Subtree(l, a + [n]) < Subtree(l, a)
  {
    assert a in Subtree(l, a) && a !in Subtree(l, a + [n]);
  }

  /** Uploading a folder: its directory first, then everything below. */
  lemma FolderThenBelow(t0: Tree, t1: Tree, t2: Tree, l: Tree, a: Path, p: Path, gone: bool)
    requires IsDir(l, a)
    requires t1 == (if p in t0 then t0 else t0[p := Dir]) && IsDir(t1, p)
    ensures Merged(t1, t2, l, a, p, false) ==> Merged(t0, t2, l, a, p, true)
    ensures PartlyOverlaid(t1, t2, l, a, p, false, gone) ==> PartlyOverlaid(t0, t2, l, a, p, true, gone)
    ensures NoClash(t1, l, a, p, false) <==> NoClash(t0, l, a, p, true)
  {
    assert a + p[|p|..] == a;
    assert Wanted(l, a, p, p) == Some(Dir);
    if Merged(t1, t2, l, a, p, false) {
      forall q ensures At(t2, q) == MergeAt(t0, l, a, p, true, q) {
        assert At(t2, q) == MergeAt(t1, l, a, p, false, q);
      }
    }
    if PartlyOverlaid(t1, t2, l, a, p, false, gone) {
      forall q ensures PlaceOk(t0, t2, l, a, p, true, gone, q) {
        assert PlaceOk(t1, t2, l, a, p, false, gone, q);
        assert At(t1, q) == At(t0, q) || q == p;
      }
    }
    assert forall q | p < q :: At(t1, q) == At(t0, q);
    assert Agrees(At(t0, p), Wanted(l, a, p, p));
  }

  lemma ClashStays(t: Tree, l: Tree, a: Path, d: Path, names: seq<Name>, i: nat)
    requires i <= |names|
    ensures NoClashSoFar(t, l, a, d, names, |names|) ==> NoClashSoFar(t, l, a, d, names, i)
  {
  }

  /** Uploading a file touches one place. */
  lemma FileIsLeaf(t0: Tree, t1: Tree, l: Tree, a: Path, p: Path, content: Bytes, gone: bool)
    requires IsTree(l) && a in l && l[a] == File(content)
    requires || t1 == t0
             || (Agrees(At(t0, p), Some(File(content)))
                 && ((exists n :: 0 <= n <= |content| && t1 == t0[p := File(content[..n])])
                     || (gone && t1 == t0 - {p})))
    ensures PartlyOverlaid(t0, t1, l, a, p, true, gone)
    ensures t1 == t0[p := File(content)] ==> Merged(t0, t1, l, a, p, true)
    ensures NoClash(t0, l, a, p, true) <==> Agrees(At(t0, p), Some(File(content)))
  {
    assert a + p[|p|..] == a;
    forall q | p < q ensures Wanted(l, a, p, q) == None {
      var x := a + q[|p|..];
      assert a < x;
      if x in l { PrefixIn(l, a, x); }
    }
    assert Wanted(l, a, p, p) == Some(File(content));
  }

  lemma OtherIsNothing(t: Tree, l: Tree, a: Path, p: Path)
    requires IsTree(l) && a in l && !l[a].Dir? && !l[a].File?
    ensures PartlyOverlaid(t, t, l, a, p, true, false) && Merged(t, t, l, a, p, true) && NoClash(t, l, a, p, true)
  {
    assert a + p[|p|..] == a;
    forall q | p < q ensures Wanted(l, a, p, q) == None {
      var x := a + q[|p|..];
      assert a < x;
      if x in l { PrefixIn(l, a, x); }
    }
  }

  lemma FolderOpened(t0: Tree, t1: Tree, l: Tree, a: Path, p: Path, gone: bool)
    requires IsDir(l, a) && (t1 == t0 || (p !in t0 && t1 == t0[p := Dir]))
    ensures PartlyOverlaid(t0, t1, l, a, p, true, gone)
    ensures NoClash(t0, l, a, p, true) ==> p !in t0 || IsDir(t0, p)
  {
    assert a + p[|p|..] == a;
    assert Wanted(l, a, p, p) == Some(Dir);
    if NoClash(t0, l, a, p, true) {
      assert Inside(p, true, p);
      assert Agrees(At(t0, p), Wanted(l, a, p, p));
    }
  }

  // ---------------------------------------------------------------- creating directories on a path

  /** The tree with the directory that `_openDir` enters, created if there was nothing. */
  function WithDir(t: Tree, d: Path, part: Part): Tree {
    if part.Sub? && d + [part.name] !in t then t[d + [part.name] := Dir] else t
  }

  /** `ensureDir` on trees: every directory on the way that does not exist is created. */
  function MakeDirs(t: Tree, p: Path, parts: seq<Part>): Tree
    decreases |parts|
  {
    if parts == [] then t else MakeDirs(WithDir(t, p, parts[0]), Enter(p, parts[0]), parts[1..])
  }

  /** No file or link is in the way. */
  predicate CanMake(t: Tree, p: Path, parts: seq<Part>)
    decreases |parts|
  {
    parts == [] ||
    var t1, p1 := WithDir(t, p, parts[0]), Enter(p, parts[0]);
    IsDir(t1, p1) && CanMake(t1, p1, parts[1..])
  }

  lemma {:induction false} MakeDirsAdds(t: Tree, p: Path, parts: seq<Part>)
    ensures forall q | q in t :: q in MakeDirs(t, p, parts) && MakeDirs(t, p, parts)[q] == t[q]
    ensures forall q | q in MakeDirs(t, p, parts) && q !in t :: MakeDirs(t, p, parts)[q] == Dir
    decreases |parts|
  {
    if parts != [] {
      MakeDirsAdds(WithDir(t, p, parts[0]), Enter(p, parts[0]), parts[1..]);
    }
  }

  // ---------------------------------------------------------------- downloads

  /** `ensureLocalDirectory` can provide the directory: the path exists, or can be created. */
  predicate CanEnsure(f: Tree, at: Path) {
    at in f || CanMake(f, [], Subs(at))
  }

  /** The local tree after `ensureLocalDirectory`. */
  function Ensured(f: Tree, at: Path): Tree {
    if at in f then f else MakeDirs(f, [], Subs(at))
  }

  /** The download of `w` to the local path `q` meets nothing in its way: a directory cannot be created
      and a file not written below anything but a directory, and a file only over a file.  A directory
      that meets a file or link is not noticed as such. */
  predicate Passable(f: Tree, w: Option<Entry>, q: Path) {
    w.Some? ==>
      && (Parent(q) in f ==> IsDir(f, Parent(q)))
      && (w.value.File? && q in f ==> f[q].File?)
  }

  ghost predicate NoBlock(f: Tree, t: Tree, d: Path, at: Path, whole: bool) {
    forall q | Inside(at, whole, q) :: Passable(f, Wanted(t, d, at, q), q)
  }

  ghost predicate NoBlockSoFar(f: Tree, t: Tree, d: Path, at: Path, names: seq<Name>, i: nat)
    requires i <= |names|
  {
    forall q | InNames(at, names, i, q) :: Passable(f, Wanted(t, d, at, q), q)
  }

  /** The local directory can be provided and nothing is in the way in it. */
  ghost predicate CanDownload(f: Tree, t: Tree, d: Path, at: Path) {
    CanEnsure(f, at) && NoBlock(Ensured(f, at), t, d, at, false)
  }

  /** The clashes that do not block: a directory with no file and no directory in it meets a file or
      link. */
  lemma UnnoticedClash(f: Tree, t: Tree, d: Path, at: Path, q: Path)
    requires NoBlock(f, t, d, at, false) && at < q && !Agrees(At(f, q), Wanted(t, d, at, q))
    ensures Wanted(t, d, at, q) == Some(Dir) && q in f && !IsDir(f, q)
    ensures forall r {:trigger Parent(r)} | q < r && Parent(r) == q :: Wanted(t, d, at, r) == None
  {
    assert Inside(at, false, q) && Passable(f, Wanted(t, d, at, q), q);
    forall r | q < r && Parent(r) == q ensures Wanted(t, d, at, r) == None {
      assert Inside(at, false, r) && Passable(f, Wanted(t, d, at, r), r);
    }
  }

  /** Where nothing clashes nothing blocks. */
  lemma NoClashNoBlock(f: Tree, t: Tree, d: Path, at: Path)
    requires IsTree(t) && IsDir(f, at) && d in t && NoClash(f, t, d, at, false)
    ensures NoBlock(f, t, d, at, false)
  {
    forall q | at < q ensures Passable(f, Wanted(t, d, at, q), q) {
      assert Inside(at, false, q) && Agrees(At(f, q), Wanted(t, d, at, q));
      var r := Parent(q);
      if r != at && Wanted(t, d, at, q).Some? {
        WantedAbove(t, d, at, q);
        assert Inside(at, false, r) && Agrees(At(f, r), Wanted(t, d, at, r));
      }
    }
  }

  lemma WantedAbove(t: Tree, d: Path, at: Path, q: Path)
    requires IsTree(t) && at < q && at != Parent(q) && Wanted(t, d, at, q).Some?
    ensures at < Parent(q) && Wanted(t, d, at, Parent(q)) == Some(Dir)
  {
    var x := d + q[|at|..];
    assert Parent(x) == d + Parent(q)[|at|..];
  }

  lemma NoBlockNext(f1: Tree, f2: Tree, t: Tree, d: Path, at: Path, names: seq<Name>, i: nat)
    requires i < |names| && IsReadDir(t, d, names)
    requires UploadedSoFar(f1, f2, t, d, at, names, i) && NoBlockSoFar(f1, t, d, at, names, i)
    ensures NoBlock(f2, t, d + [names[i]], at + [names[i]], true) <==> NoBlockSoFar(f1, t, d, at, names, i + 1)
  {
    var x := at + [names[i]];
    forall q ensures InNames(at, names, i + 1, q) <==> InNames(at, names, i, q) || x <= q {
      InNamesNext(at, names, i, q);
    }
    forall q | x <= q
      ensures Passable(f2, Wanted(t, d + [names[i]], x, q), q) == Passable(f1, Wanted(t, d, at, q), q)
    {
      WantedInEntry(t, d, at, names[i], q);
      EntryNotYet(t, d, at, names, i, q);
      SameSoFar(f1, f2, t, d, at, names, i, q);
      if q != x { EntryNotYet(t, d, at, names, i, Parent(q)); }
      SameSoFar(f1, f2, t, d, at, names, i, Parent(q));
    }
    assert forall q :: x <= q <==> Inside(x, true, q);
  }

  lemma SameSoFar(f1: Tree, f2: Tree, t: Tree, d: Path, at: Path, names: seq<Name>, i: nat, q: Path)
    requires i <= |names| && UploadedSoFar(f1, f2, t, d, at, names, i) && !InNames(at, names, i, q)
    ensures At(f2, q) == At(f1, q)
  {
  }

  lemma AllNamesBlock(f: Tree, t: Tree, d: Path, at: Path, names: seq<Name>)
    requires IsTree(t) && IsReadDir(t, d, names)
    ensures NoBlockSoFar(f, t, d, at, names, |names|) <==> NoBlock(f, t, d, at, false)
  {
    forall q | at < q && Wanted(t, d, at, q).Some? ensures InNames(at, names, |names|, q) {
      NameOf(t, d, at, names, q);
    }
  }

  lemma BlockStays(f: Tree, t: Tree, d: Path, at: Path, names: seq<Name>, i: nat)
    requires i <= |names|
    ensures NoBlockSoFar(f, t, d, at, names, |names|) ==> NoBlockSoFar(f, t, d, at, names, i)
  {
  }

  lemma {:induction false} MakeDirsKeepsTree(t: Tree, p: Path, parts: seq<Part>)
    requires IsTree(t) && IsDir(t, p) && CanMake(t, p, parts)
    ensures IsTree(MakeDirs(t, p, parts)) && IsDir(MakeDirs(t, p, parts), Walk(p, parts))
    decreases |parts|
  {
    if parts != [] {
      var part := parts[0];
      var t1, p1 := WithDir(t, p, part), Enter(p, part);
      if part.Sub? { assert Parent(p + [part.name]) == p; }
      assert IsTree(t1);
      MakeDirsKeepsTree(t1, p1, parts[1..]);
    }
  }

  lemma EnsuredIsTree(f: Tree, at: Path)
    requires IsTree(f) && CanEnsure(f, at)
    ensures IsTree(Ensured(f, at)) && at in Ensured(f, at)
    ensures at !in f ==> IsDir(Ensured(f, at), at)
  {
    if at !in f {
      MakeDirsKeepsTree(f, [], Subs(at));
      WalkSubs([], at);
      assert [] + at == at;
    }
  }

  /** `r` is on the way from `p` down along `q`, both ends included. */
  predicate OnWay(p: Path, q: Path, r: Path) {
    p <= r && r <= p + q
  }

  lemma OnWayStep(p: Path, q: Path, r: Path)
    requires q != []
    ensures OnWay(p, q, r) <==> r == p || OnWay(p + [q[0]], q[1..], r)
  {
    assert p + [q[0]] + q[1..] == p + q;
    if p < r && r <= p + q { assert r[|p|] == q[0]; }
  }

  /** Creating the directories of a path succeeds exactly if everything on the way that exists is a
      directory, and adds exactly those on the way that do not exist. */
  lemma {:induction false} MakeDirsMeans(t: Tree, p: Path, q: Path)
    requires IsDir(t, p)
    ensures CanMake(t, p, Subs(q)) <==> forall r | OnWay(p, q, r) && r in t :: IsDir(t, r)
    ensures forall r :: At(MakeDirs(t, p, Subs(q)), r) == if r !in t && OnWay(p, q, r) then Some(Dir) else At(t, r)
    decreases |q|
  {
    if q == [] {
      OnlyHere(p);
    } else {
      var p1, rest := p + [q[0]], q[1..];
      var t1 := WithDir(t, p, Sub(q[0]));
      assert Subs(q)[0] == Sub(q[0]) && Subs(q)[1..] == Subs(rest);
      forall r ensures OnWay(p, q, r) <==> r == p || OnWay(p1, rest, r) {
        OnWayStep(p, q, r);
      }
      assert OnWay(p1, rest, p1) by { assert p1 <= p1 + rest; }
      if IsDir(t1, p1) {
        MakeDirsMeans(t1, p1, rest);
      } else {
        MakeDirsAlong(t1, p1, rest);
      }
    }
  }

  lemma {:induction false} MakeDirsAlong(t: Tree, p: Path, q: Path)
    requires p in t
    ensures forall r :: At(MakeDirs(t, p, Subs(q)), r) == if r !in t && OnWay(p, q, r) then Some(Dir) else At(t, r)
    decreases |q|
  {
    if q != [] {
      var p1, rest := p + [q[0]], q[1..];
      var t1 := WithDir(t, p, Sub(q[0]));
      assert Subs(q)[0] == Sub(q[0]) && Subs(q)[1..] == Subs(rest);
      forall r ensures OnWay(p, q, r) <==> r == p || OnWay(p1, rest, r) {
        OnWayStep(p, q, r);
      }
      assert OnWay(p1, rest, p1) by { assert p1 <= p1 + rest; }
      MakeDirsAlong(t1, p1, rest);
    } else {
      OnlyHere(p);
    }
  }

  lemma OnlyHere(p: Path)
    ensures forall r :: OnWay(p, [], r) <==> r == p
  {
    assert p + [] == p;
    forall r | OnWay(p, [], r) ensures r == p {
      assert |r| == |p|;
    }
  }

  lemma WholePrefix(r: Path, p: Path)
    ensures r <= p <==> r == p || r < p
  {
    assert r <= p && |r| == |p| ==> r == p;
  }

  /** `ensureLocalDirectory` fails exactly if the path does not exist and something on the way to it is no
      directory; it adds exactly the missing directories. */
  lemma EnsuredMeans(f: Tree, at: Path)
    requires IsTree(f)
    ensures CanEnsure(f, at) <==> at in f || forall r | r < at && r in f :: IsDir(f, r)
    ensures forall r :: At(Ensured(f, at), r) == if at !in f && r !in f && r <= at then Some(Dir) else At(f, r)
  {
    MakeDirsMeans(f, [], at);
    assert [] + at == at;
    assert forall r :: OnWay([], at, r) <==> r <= at;
    if at !in f {
      forall r | r in f ensures r <= at ==> r < at {
        WholePrefix(r, at);
      }
    }
  }

  lemma {:induction false} MakeDirsExisting(t: Tree, p: Path, q: Path)
    requires IsTree(t) && IsDir(t, p + q)
    ensures MakeDirs(t, p, Subs(q)) == t && CanMake(t, p, Subs(q))
    decreases |q|
  {
    if q != [] {
      var p1, rest := p + [q[0]], q[1..];
      assert p1 + rest == p + q;
      PrefixIn(t, p1, p + q);
      assert Subs(q) == [Sub(q[0])] + Subs(rest);
      assert Subs(q)[0] == Sub(q[0]) && Subs(q)[1..] == Subs(rest);
      assert p1 == p + q ==> IsDir(t, p1);
      MakeDirsExisting(t, p1, rest);
    }
  }

  lemma {:induction false} SubsSnoc(p: Path, n: Name)
    ensures Subs(p + [n]) == Subs(p) + [Sub(n)]
    decreases |p|
  {
    if p == [] {
      assert p + [n] == [n] && [n][1..] == [];
    } else {
      assert (p + [n])[1..] == p[1..] + [n];
      SubsSnoc(p[1..], n);
    }
  }

  lemma {:induction false} MakeDirsSnoc(t: Tree, p: Path, parts: seq<Part>, part: Part)
    ensures MakeDirs(t, p, parts + [part]) == WithDir(MakeDirs(t, p, parts), Walk(p, parts), part)
    ensures Walk(p, parts + [part]) == Enter(Walk(p, parts), part)
    ensures CanMake(t, p, parts + [part]) <==>
            && CanMake(t, p, parts)
            && IsDir(WithDir(MakeDirs(t, p, parts), Walk(p, parts), part), Enter(Walk(p, parts), part))
    decreases |parts|
  {
    if parts == [] {
      assert parts + [part] == [part] && [part][1..] == [];
      assert MakeDirs(WithDir(t, p, part), Enter(p, part), []) == WithDir(t, p, part);
      assert CanMake(WithDir(t, p, part), Enter(p, part), []);
    } else {
      assert (parts + [part])[1..] == parts[1..] + [part];
      MakeDirsSnoc(WithDir(t, p, parts[0]), Enter(p, parts[0]), parts[1..], part);
    }
  }

  /** In an existing directory one entry is created; below a file none can be. */
  lemma EnsureEntry(f: Tree, at: Path, n: Name)
    requires IsTree(f) && at in f
    ensures IsDir(f, at) ==> CanEnsure(f, at + [n])
    ensures IsDir(f, at) ==> Ensured(f, at + [n]) == if at + [n] in f then f else f[at + [n] := Dir]
    ensures CanEnsure(f, at + [n]) ==> IsDir(f, at)
  {
    var x := at + [n];
    assert Parent(x) == at;
    SubsSnoc(at, n);
    WalkSubs([], at);
    assert [] + at == at;
    MakeDirsSnoc(f, [], Subs(at), Sub(n));
    if IsDir(f, at) {
      MakeDirsExisting(f, [], at);
    } else if CanMake(f, [], Subs(at)) {
      MakeDirsKeepsTree(f, [], Subs(at));
      MakeDirsAdds(f, [], Subs(at));
      assert false;
    }
  }

  function Names(files: seq<Listed>): (names: seq<Name>)
    ensures |names| == |files| && forall i | 0 <= i < |names| :: names[i] == files[i].name
  {
    if files == [] then [] else [files[0].name] + Names(files[1..])
  }

  lemma ListingIsReadDir(t: Tree, p: Path, files: seq<Listed>)
    requires IsListing(t, p, files)
    ensures IsReadDir(t, p, Names(files))
  {
    forall q {:trigger Parent(q)} | q in t && q != [] && Parent(q) == p
      ensures exists i :: 0 <= i < |files| && q == p + [Names(files)[i]]
    {
      var i :| 0 <= i < |files| && q == p + [files[i].name];
      assert q == p + [Names(files)[i]];
    }
  }

  /** A directory that meets something else is passed by. */
  lemma PassedBy(f0: Tree, f1: Tree, t: Tree, p: Path, x: Path)
    requires IsDir(t, p) && x in f0 && !IsDir(f0, x)
    requires PartlyOverlaid(f0, f1, t, p, x, false, true)
    ensures PartlyOverlaid(f0, f1, t, p, x, true, true)
    ensures Merged(f0, f1, t, p, x, false) ==> Merged(f0, f1, t, p, x, true)
  {
    assert p + x[|x|..] == p;
    assert Wanted(t, p, x, x) == Some(Dir);
    forall q ensures PlaceOk(f0, f1, t, p, x, true, true, q) {
      assert PlaceOk(f0, f1, t, p, x, false, true, q);
    }
    assert Inside(x, true, x) && !Agrees(At(f0, x), Wanted(t, p, x, x));
    if Merged(f0, f1, t, p, x, false) {
      forall q ensures At(f1, q) == MergeAt(f0, t, p, x, true, q) {
        assert At(f1, q) == MergeAt(f0, t, p, x, false, q);
      }
    }
  }

  lemma FolderSame(f: Tree, t: Tree, p: Path, x: Path)
    ensures PartlyOverlaid(f, f, t, p, x, true, true)
  {
  }

  lemma FolderDownloaded(f0: Tree, f1: Tree, t: Tree, p: Path, x: Path)
    requires IsTree(f0) && IsDir(t, p) && x != []
    requires if CanEnsure(f0, x) then PartlyOverlaid(Ensured(f0, x), f1, t, p, x, false, true) else f1 == f0
    requires CanEnsure(f0, x) && x !in f0 ==> Ensured(f0, x) == f0[x := Dir]
    ensures PartlyOverlaid(f0, f1, t, p, x, true, true)
    ensures CanEnsure(f0, x) && Merged(Ensured(f0, x), f1, t, p, x, false) ==> Merged(f0, f1, t, p, x, true)
  {
    if CanEnsure(f0, x) {
      if x in f0 && !IsDir(f0, x) {
        PassedBy(f0, f1, t, p, x);
      } else {
        FolderThenBelow(f0, Ensured(f0, x), f1, t, p, x, true);
      }
    }
  }

  /** Nothing blocks a folder exactly if its directory can be provided and nothing blocks its contents. */
  lemma FolderBlocked(f: Tree, t: Tree, p: Path, at: Path, n: Name)
    requires IsTree(f) && at in f && IsDir(t, p)
    ensures NoBlock(f, t, p, at + [n], true) <==> CanDownload(f, t, p, at + [n])
  {
    var x := at + [n];
    EnsureEntry(f, at, n);
    assert Parent(x) == at && p + x[|x|..] == p && Wanted(t, p, x, x) == Some(Dir);
    assert Passable(f, Some(Dir), x) <==> IsDir(f, at);
    if IsDir(f, at) {
      forall q | x < q
        ensures Passable(f, Wanted(t, p, x, q), q) == Passable(Ensured(f, x), Wanted(t, p, x, q), q)
      {
        assert At(Ensured(f, x), q) == At(f, q);
        assert Parent(q) != x ==> At(Ensured(f, x), Parent(q)) == At(f, Parent(q));
      }
    }
    assert Inside(x, true, x);
    assert forall q :: Inside(x, true, q) <==> q == x || Inside(x, false, q);
  }

  lemma FileBlocked(f: Tree, t: Tree, p: Path, at: Path, n: Name)
    requires IsTree(t) && IsFile(t, p) && at in f
    ensures NoBlock(f, t, p, at + [n], true) <==> IsDir(f, at) && (at + [n] in f ==> f[at + [n]].File?)
  {
    var x := at + [n];
    assert Parent(x) == at && p + x[|x|..] == p && Inside(x, true, x);
    forall q | x < q ensures Wanted(t, p, x, q) == None {
      var y := p + q[|x|..];
      assert p < y;
      if y in t { PrefixIn(t, p, y); }
    }
  }

  lemma OtherNotBlocked(f: Tree, t: Tree, p: Path, x: Path)
    requires IsTree(t) && p in t && !t[p].Dir? && !t[p].File?
    ensures NoBlock(f, t, p, x, true)
  {
    assert p + x[|x|..] == p;
    forall q | Inside(x, true, q) ensures Wanted(t, p, x, q) == None {
      var y := p + q[|x|..];
      assert q != x ==> p < y;
      if y in t { PrefixIn(t, p, y); }
    }
  }

  lemma OutsideEntry(f0: Tree, f1: Tree, t: Tree, d: Path, at: Path, n: Name)
    requires Merged(f0, f1, t, d + [n], at + [n], true)
    ensures At(f1, at) == At(f0, at)
  {
    assert At(f1, at) == MergeAt(f0, t, d + [n], at + [n], true, at);
  }

  /** Such a clash: a directory that holds only a link is passed by where a local file is, and the
      download still succeeds. */
  lemma ClashGoesUnnoticed(n: Name, m: Name, t: Tree, f: Tree, link: string, content: Bytes)
    requires t == map[[] := Dir, [n] := Dir, [n, m] := Link(link)]
    requires f == map[[] := Dir, [n] := File(content)]
    ensures IsTree(t) && IsTree(f) && CanDownload(f, t, [], [])
    ensures Merged(f, f, t, [], [], false) && !Overlaid(f, f, t, [], [], false)
  {
    assert Parent([n]) == [] && Parent([n, m]) == [n];
    assert t[[n]] == Dir && f[[n]] == File(content) && [n] != [n, m];
    assert forall q | [] < q && q in t :: q == [n] || q == [n, m];
    forall q: Path ensures Wanted(t, [], [], q) == if q == [] || q == [n] then Some(Dir) else None {
      assert [] + q[0..] == q;
    }
    assert Inside([], false, [n]) && !Agrees(At(f, [n]), Wanted(t, [], [], [n]));
    forall q ensures At(f, q) == MergeAt(f, t, [], [], false, q) {
    }
    MergeIsOverlay(f, f, t, [], [], false);
  }

  // ---------------------------------------------------------------- round trip

  /** A path without "..". */
  predicate OnlyDown(parts: seq<Part>) {
    forall i | 0 <= i < |parts| :: parts[i].Sub?
  }

  predicate NothingBelow(t: Tree, p: Path) {
    forall q | q in t :: !(p < q)
  }

  lemma {:induction false} SubsOnlyDown(p: Path)
    ensures OnlyDown(Subs(p))
    decreases |p|
  {
    if p != [] { SubsOnlyDown(p[1..]); }
  }

  lemma {:induction false} WalkDown(p: Path, parts: seq<Part>)
    requires OnlyDown(parts)
    ensures p <= Walk(p, parts)
    decreases |parts|
  {
    if parts != [] {
      var p1 := Enter(p, parts[0]);
      assert p <= p1;
      WalkDown(p1, parts[1..]);
    }
  }

  /** The directories created for such a path are those on it, none below its end. */
  lemma {:induction false} MadeOnTheWay(t: Tree, p: Path, parts: seq<Part>, q: Path)
    requires OnlyDown(parts) && q in MakeDirs(t, p, parts) && q !in t
    ensures q <= Walk(p, parts)
    decreases |parts|
  {
    if parts != [] {
      var t1, p1 := WithDir(t, p, parts[0]), Enter(p, parts[0]);
      if q in t1 {
        assert q == p1;
        WalkDown(p1, parts[1..]);
      } else {
        MadeOnTheWay(t1, p1, parts[1..], q);
      }
    }
  }

  lemma NothingMadeBelow(t: Tree, p: Path, parts: seq<Part>)
    requires OnlyDown(parts) && NothingBelow(t, Walk(p, parts))
    ensures NothingBelow(MakeDirs(t, p, parts), Walk(p, parts))
  {
    forall q | q in MakeDirs(t, p, parts) ensures !(Walk(p, parts) < q) {
      if q !in t { MadeOnTheWay(t, p, parts, q); }
    }
  }

  lemma NothingEnsuredBelow(f: Tree, at: Path)
    requires NothingBelow(f, at)
    ensures NothingBelow(Ensured(f, at), at)
  {
    SubsOnlyDown(at);
    WalkSubs([], at);
    assert [] + at == at;
    NothingMadeBelow(f, [], Subs(at));
  }

  lemma NothingClashes(t: Tree, l: Tree, a: Path, d: Path)
    requires NothingBelow(t, d)
    ensures NoClash(t, l, a, d, false)
  {
    assert forall q | Inside(d, false, q) :: At(t, q) == None;
  }

  /** Where there is nothing below `at`, only `at` itself can be in the way. */
  lemma EmptyBlocks(f: Tree, t: Tree, d: Path, at: Path)
    requires NothingBelow(f, at) && at in f
    requires IsTree(t) && IsDir(t, d) && forall q | q in t && d < q :: t[q].Dir? || t[q].File?
    ensures NoBlock(f, t, d, at, false) <==> IsDir(f, at) || NoChildren(t, d)
  {
    if !IsDir(f, at) && !NoChildren(t, d) {
      var c :| c in t && c != [] && Parent(c) == d;
      var q := at + [c[|d|]];
      assert q[|at|..] == [c[|d|]] && d + [c[|d|]] == c && Parent(q) == at;
      assert Inside(at, false, q) && !Passable(f, Wanted(t, d, at, q), q);
    }
    if IsDir(f, at) || NoChildren(t, d) {
      forall q | Inside(at, false, q) ensures Passable(f, Wanted(t, d, at, q), q) {
        if Wanted(t, d, at, q).Some? {
          var x := d + q[|at|..];
          assert d < x && x in t;
          var c := ChildToward(t, d, x);
          assert at <= Parent(q);
          assert Parent(q) in f ==> Parent(q) == at;
          assert q !in f;
        }
      }
    }
  }

  /** Uploading a tree of files and directories into an empty directory and downloading that one into
      an empty directory gives the original tree. */
  lemma OverlayThenMerge(l: Tree, a: Path, t0: Tree, t1: Tree, d: Path, f0: Tree, f1: Tree, b: Path, rest: Path)
    requires forall q | q in l && a < q :: l[q].Dir? || l[q].File?
    requires NothingBelow(t0, d) && NothingBelow(f0, b)
    requires Overlaid(t0, t1, l, a, d, false) && Merged(f0, f1, t1, d, b, false)
    requires rest != []
    ensures At(t1, d + rest) == At(l, a + rest) && At(f1, b + rest) == At(l, a + rest)
  {
    assert (b + rest)[|b|..] == rest && (d + rest)[|d|..] == rest;
    assert a < a + rest && d < d + rest && b < b + rest;
    assert At(f1, b + rest) == MergeAt(f0, t1, d, b, false, b + rest);
    assert At(t1, d + rest) ==
      if Inside(d, false, d + rest) && Wanted(l, a, d, d + rest).Some?
      then Wanted(l, a, d, d + rest) else At(t0, d + rest);
  }

  lemma SameBelow(t0: Tree, t1: Tree, l: Tree, a: Path, d: Path, q: Path)
    requires forall x | x in l && a < x :: l[x].Dir? || l[x].File?
    requires NothingBelow(t0, d) && Overlaid(t0, t1, l, a, d, false) && d < q
    ensures a < a + q[|d|..] && At(t1, q) == At(l, a + q[|d|..])
    ensures q in t1 ==> t1[q].Dir? || t1[q].File?
  {
    var x := a + q[|d|..];
    assert a < x;
    assert At(t1, q) == if Wanted(l, a, d, q).Some? then Wanted(l, a, d, q) else At(t0, q);
  }

  lemma ChildOf(p: Path, n: Name, q: Path)
    requires q == p + [n]
    ensures p < q && q != [] && Parent(q) == p && q[|p|..] == [n]
  {
  }

  /** An uploaded tree has children exactly if the local one has. */
  lemma SameChildren(t0: Tree, t1: Tree, l: Tree, a: Path, d: Path)
    requires forall q | q in l && a < q :: l[q].Dir? || l[q].File?
    requires NothingBelow(t0, d) && Overlaid(t0, t1, l, a, d, false)
    ensures NoChildren(t1, d) <==> NoChildren(l, a)
    ensures forall q | q in t1 && d < q :: t1[q].Dir? || t1[q].File?
  {
    forall q | q in t1 && d < q ensures t1[q].Dir? || t1[q].File? {
      SameBelow(t0, t1, l, a, d, q);
    }
    if !NoChildren(t1, d) {
      var c :| c in t1 && c != [] && Parent(c) == d;
      assert c == d + [c[|d|]];
      ChildInBoth(t0, t1, l, a, d, c[|d|]);
    }
    if !NoChildren(l, a) {
      var c :| c in l && c != [] && Parent(c) == a;
      assert c == a + [c[|a|]];
      ChildInBoth(t0, t1, l, a, d, c[|a|]);
    }
  }

  lemma ChildInBoth(t0: Tree, t1: Tree, l: Tree, a: Path, d: Path, n: Name)
    requires forall q | q in l && a < q :: l[q].Dir? || l[q].File?
    requires NothingBelow(t0, d) && Overlaid(t0, t1, l, a, d, false)
    ensures d + [n] in t1 <==> a + [n] in l
    ensures d + [n] in t1 ==> !NoChildren(t1, d) && !NoChildren(l, a)
  {
    ChildOf(d, n, d + [n]);
    ChildOf(a, n, a + [n]);
    SameBelow(t0, t1, l, a, d, d + [n]);
  }
}
