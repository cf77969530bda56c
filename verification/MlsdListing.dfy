/** Model of `transformList` of src/parseListMLSD.ts: symbolic links are tied to the entries that
    share their unique ID, and entries that lie elsewhere are taken out. */
module MlsdListing {
  import opened ReplyParser
  import opened Mlsd

  predicate IsTarget(i: Info, id: string) {
    i.kind != SymbolicLink && i.uniqueID == Some(id)
  }

  /** The last entry with the given ID that is no link. */
  function LastTarget(infos: seq<Info>, id: string): Option<Info> {
    if infos == [] then None
    else
      var last := infos[|infos| - 1];
      if IsTarget(last, id) then Some(last) else LastTarget(infos[..|infos| - 1], id)
  }

  predicate Unresolved(i: Info) {
    i.kind == SymbolicLink && i.uniqueID.Some? && i.link == None
  }

  /** An unresolved link gets the name of its target, if there is one. */
  function LinkOf(infos: seq<Info>, i: Info): Option<string> {
    if Unresolved(i) && LastTarget(infos, i.uniqueID.value).Some?
    then Some(LastTarget(infos, i.uniqueID.value).value.name) else i.link
  }

  function Resolve(infos: seq<Info>, i: Info): Info {
    i.(link := LinkOf(infos, i))
  }

  /** The entries among the first `n` that lie in the directory, with their links resolved. */
  function Kept(infos: seq<Info>, n: nat): seq<Info>
    requires n <= |infos|
  {
    if n == 0 then []
    else Kept(infos, n - 1) + if '/' in infos[n - 1].name then [] else [Resolve(infos, infos[n - 1])]
  }

  function Transform(infos: seq<Info>): seq<Info> {
    Kept(infos, |infos|)
  }

  function Views(files: seq<FileInfo>): (infos: seq<Info>)
    reads set f | f in files
    ensures |infos| == |files| && forall i | 0 <= i < |files| :: infos[i] == files[i].View()
  {
    if files == [] then [] else [files[0].View()] + Views(files[1..])
  }

  /** The map that ties an ID to the last entry that is no link. */
  ghost predicate ByID(m: map<string, FileInfo>, infos: seq<Info>) {
    && (forall id :: id in m <==> LastTarget(infos, id).Some?)
    && (forall id | id in m :: m[id].name == LastTarget(infos, id).value.name)
  }

  lemma LastTargetNext(infos: seq<Info>, i: nat, id: string)
    requires i < |infos|
    ensures LastTarget(infos[..i + 1], id) ==
            if IsTarget(infos[i], id) then Some(infos[i]) else LastTarget(infos[..i], id)
  {
    assert infos[..i + 1][..i] == infos[..i];
  }

  /** First loop of `transformList`. */
  method CollectTargets(files: seq<FileInfo>) returns (nonLinksByID: map<string, FileInfo>)
    ensures ByID(nonLinksByID, Views(files))
  {
    ghost var infos := Views(files);
    nonLinksByID := map[];
    var i := 0;
    while i < |files|
      invariant 0 <= i <= |files|
      invariant ByID(nonLinksByID, infos[..i])
    {
      var file := files[i];
      forall id ensures LastTarget(infos[..i + 1], id) ==
                        if IsTarget(infos[i], id) then Some(infos[i]) else LastTarget(infos[..i], id)
      {
        LastTargetNext(infos, i, id);
      }
      assert infos[i] == file.View();
      if file.kind != SymbolicLink && file.uniqueID.Some? {
        nonLinksByID := nonLinksByID[file.uniqueID.value := file];
      }
      i := i + 1;
    }
    assert infos[..i] == infos;
  }

  function ListedFiles(files: seq<FileInfo>, n: nat): seq<FileInfo>
    requires n <= |files|
  {
    if n == 0 then []
    else ListedFiles(files, n - 1) + if '/' in files[n - 1].name then [] else [files[n - 1]]
  }

  lemma {:induction false} ListedAreFiles(files: seq<FileInfo>, n: nat)
    requires n <= |files|
    ensures forall f | f in ListedFiles(files, n) :: f in files
  {
    if n > 0 {
      ListedAreFiles(files, n - 1);
    }
  }

  lemma ViewsSnoc(files: seq<FileInfo>, f: FileInfo)
    ensures Views(files + [f]) == Views(files) + [f.View()]
  {
  }

  lemma {:induction false} ListedViews(files: seq<FileInfo>, infos: seq<Info>, n: nat)
    requires n <= |files| == |infos| && forall i | 0 <= i < |files| :: files[i].View() == Resolve(infos, infos[i])
    ensures Views(ListedFiles(files, n)) == Kept(infos, n)
  {
    if n > 0 {
      ListedViews(files, infos, n - 1);
      assert files[n - 1].View() == Resolve(infos, infos[n - 1]);
      ViewsSnoc(ListedFiles(files, n - 1), files[n - 1]);
    }
  }

  /** What the body of the second loop makes of a link. */
  function Linked(m: map<string, FileInfo>, kind: Kind, uniqueID: Option<string>, link: Option<string>): Option<string> {
    if kind == SymbolicLink && uniqueID.Some? && link == None && uniqueID.value in m
    then Some(m[uniqueID.value].name) else link
  }

  lemma LinkedIsLinkOf(m: map<string, FileInfo>, infos: seq<Info>, i: Info)
    requires ByID(m, infos)
    ensures Linked(m, i.kind, i.uniqueID, i.link) == LinkOf(infos, i)
  {
  }

  /** Second loop of `transformList`; an object may stand in the list more than once. */
  method ResolveAndKeep(files: seq<FileInfo>, nonLinksByID: map<string, FileInfo>) returns (resolved: seq<FileInfo>)
    modifies (set f | f in files)`link
    ensures forall k | 0 <= k < |files| ::
              files[k].link == Linked(nonLinksByID, files[k].kind, files[k].uniqueID, old(files[k].link))
    ensures resolved == ListedFiles(files, |files|)
  {
    resolved := [];
    var i := 0;
    while i < |files|
      invariant 0 <= i <= |files|
      invariant forall k | 0 <= k < |files| ::
                  || files[k].link == Linked(nonLinksByID, files[k].kind, files[k].uniqueID, old(files[k].link))
                  || (k >= i && files[k].link == old(files[k].link))
      invariant resolved == ListedFiles(files, i)
    {
      var file := files[i];
      if file.kind == SymbolicLink && file.uniqueID.Some? && file.link == None {
        var id := file.uniqueID.value;
        if id in nonLinksByID {
          file.link := Some(nonLinksByID[id].name);
        }
      }
      if '/' !in file.name {
        resolved := resolved + [file];
      }
      i := i + 1;
    }
  }

  /** `transformList`: the objects stay the same, only their links are set. */
  method TransformList(files: seq<FileInfo>) returns (resolved: seq<FileInfo>)
    modifies (set f | f in files)`link
    ensures Views(resolved) == Transform(old(Views(files)))
    ensures forall i | 0 <= i < |files| :: files[i].View() == Resolve(old(Views(files)), old(files[i].View()))
    ensures forall f | f in resolved :: f in files
  {
    ghost var infos := Views(files);
    var nonLinksByID := CollectTargets(files);
    resolved := ResolveAndKeep(files, nonLinksByID);
    forall k | 0 <= k < |files| ensures files[k].View() == Resolve(infos, infos[k]) {
      assert old(files[k].View()) == infos[k];
      LinkedIsLinkOf(nonLinksByID, infos, infos[k]);
    }
    ListedViews(files, infos, |files|);
    ListedAreFiles(files, |files|);
  }

  // ---------------------------------------------------------------- what the transformation means

  /** The target is the last of the entries that are no links and share the ID. */
  lemma {:induction false} TargetIsLast(infos: seq<Info>, id: string, k: nat)
    requires k < |infos| && IsTarget(infos[k], id) && forall j | k < j < |infos| :: !IsTarget(infos[j], id)
    ensures LastTarget(infos, id) == Some(infos[k])
  {
    if k < |infos| - 1 {
      TargetIsLast(infos[..|infos| - 1], id, k);
    }
  }

  lemma {:induction false} TargetExists(infos: seq<Info>, id: string)
    ensures LastTarget(infos, id).Some? <==> exists k :: 0 <= k < |infos| && IsTarget(infos[k], id)
    ensures LastTarget(infos, id).Some? ==> LastTarget(infos, id).value in infos
  {
    if infos != [] {
      var before := infos[..|infos| - 1];
      TargetExists(before, id);
      assert infos == before + [infos[|infos| - 1]];
      assert forall k | 0 <= k < |before| :: before[k] == infos[k];
    }
  }

  /** Indices of the entries without a slash in the name, in order. */
  function Places(infos: seq<Info>, n: nat): seq<nat>
    requires n <= |infos|
  {
    if n == 0 then [] else Places(infos, n - 1) + if '/' in infos[n - 1].name then [] else [n - 1]
  }

  lemma {:induction false} PlacesAre(infos: seq<Info>, n: nat)
    requires n <= |infos|
    ensures forall i, j | 0 <= i < j < |Places(infos, n)| :: Places(infos, n)[i] < Places(infos, n)[j]
    ensures forall k: nat :: k in Places(infos, n) <==> k < n && '/' !in infos[k].name
  {
    if n > 0 {
      PlacesAre(infos, n - 1);
      var before := Places(infos, n - 1);
      assert forall i | 0 <= i < |before| :: before[i] in before;
    }
  }

  lemma {:induction false} KeptAt(infos: seq<Info>, n: nat)
    requires n <= |infos|
    ensures |Kept(infos, n)| == |Places(infos, n)|
    ensures forall i | 0 <= i < |Places(infos, n)| ::
              Places(infos, n)[i] < n && Kept(infos, n)[i] == Resolve(infos, infos[Places(infos, n)[i]])
  {
    if n > 0 {
      KeptAt(infos, n - 1);
    }
  }

  lemma KeptIsListed(infos: seq<Info>, i: nat)
    requires i < |Transform(infos)|
    ensures i < |Places(infos, |infos|)|
    ensures var k := Places(infos, |infos|)[i];
            k < |infos| && '/' !in infos[k].name && Transform(infos)[i] == Resolve(infos, infos[k])
  {
    KeptAt(infos, |infos|);
    PlacesAre(infos, |infos|);
    assert Places(infos, |infos|)[i] in Places(infos, |infos|);
  }

  /** `after` is `before`, but an unresolved link has the name of the last entry with its ID that is no
      link, if there is one. */
  ghost predicate ResolvedFrom(infos: seq<Info>, before: Info, after: Info) {
    && after == before.(link := after.link)
    && (!Unresolved(before) ==> after == before)
    && (Unresolved(before) ==>
          var id := before.uniqueID.value;
          && ((forall t | 0 <= t < |infos| :: !IsTarget(infos[t], id)) ==> after == before)
          && forall t | 0 <= t < |infos| && IsTarget(infos[t], id)
                        && (forall j | t < j < |infos| :: !IsTarget(infos[j], id)) ::
                        after.link == Some(infos[t].name))
  }

  lemma ResolveIsRight(infos: seq<Info>, i: Info)
    ensures ResolvedFrom(infos, i, Resolve(infos, i))
  {
    if Unresolved(i) {
      var id := i.uniqueID.value;
      TargetExists(infos, id);
      forall t | 0 <= t < |infos| && IsTarget(infos[t], id) && (forall j | t < j < |infos| :: !IsTarget(infos[j], id))
        ensures Resolve(infos, i).link == Some(infos[t].name)
      {
        TargetIsLast(infos, id, t);
      }
    }
  }

  /** The result holds, in order, exactly the entries without a slash in the name, with their links
      resolved in the whole listing - also by entries that are taken out - and nothing else changed. */
  lemma TransformMeans(infos: seq<Info>)
    ensures var ks := Places(infos, |infos|);
            && |Transform(infos)| == |ks|
            && (forall i, j | 0 <= i < j < |ks| :: ks[i] < ks[j])
            && (forall k: nat :: k in ks <==> k < |infos| && '/' !in infos[k].name)
            && (forall i | 0 <= i < |ks| :: ks[i] < |infos| && ResolvedFrom(infos, infos[ks[i]], Transform(infos)[i]))
  {
    PlacesAre(infos, |infos|);
    KeptAt(infos, |infos|);
    forall k | 0 <= k < |infos| ensures ResolvedFrom(infos, infos[k], Resolve(infos, infos[k])) {
      ResolveIsRight(infos, infos[k]);
    }
  }

  lemma {:induction false} NothingToDo(infos: seq<Info>, n: nat)
    requires n <= |infos| && forall i | 0 <= i < |infos| :: '/' !in infos[i].name && Resolve(infos, infos[i]) == infos[i]
    ensures Kept(infos, n) == infos[..n]
  {
    if n > 0 {
      NothingToDo(infos, n - 1);
      assert infos[..n] == infos[..n - 1] + [infos[n - 1]];
    }
  }

  /** Transforming a transformed listing changes nothing. */
  lemma TransformIsIdempotent(infos: seq<Info>)
    ensures Transform(Transform(infos)) == Transform(infos)
  {
    var r := Transform(infos);
    forall i | 0 <= i < |r| ensures '/' !in r[i].name && Resolve(r, r[i]) == r[i] {
      KeptIsListed(infos, i);
      var from := infos[Places(infos, |infos|)[i]];
      assert r[i] == Resolve(infos, from);
      if Unresolved(r[i]) {
        var id := r[i].uniqueID.value;
        assert LastTarget(infos, id) == None;
        TargetExists(infos, id);
        NoNewTargets(infos, id);
      }
    }
    NothingToDo(r, |r|);
    assert r[..|r|] == r;
  }

  lemma NoNewTargets(infos: seq<Info>, id: string)
    requires forall k | 0 <= k < |infos| :: !IsTarget(infos[k], id)
    ensures LastTarget(Transform(infos), id) == None
  {
    var r := Transform(infos);
    forall i | 0 <= i < |r| ensures !IsTarget(r[i], id) {
      KeptIsListed(infos, i);
      assert !IsTarget(infos[Places(infos, |infos|)[i]], id);
    }
    TargetExists(r, id);
  }
}
