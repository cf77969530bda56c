/** The directory operations of src/Client.ts: loops and recursion that work on the remote tree by
    commands only, any of which may fail. */
module DirectoryClient {
  import opened ReplyParser
  import opened RemoteTree
  import opened TreeChanges

  lemma DeleIs(s: Remote, name: Name, f: Fault)
    ensures var r := Execute(s, Dele(name), f);
            var p := s.cwd + [name];
            && r.0.cwd == s.cwd
            && (r.0.tree == s.tree || r.0.tree == s.tree - {p})
            && (r.1 == Done ==> r.0.tree == s.tree - {p})
            && (f == Fine ==> (r.1 == Done <==> Effect(s, Dele(name)).Some?))
  {
  }

  /** The local file system, with its root directory. */
  class LocalDisk {
    var files: Tree

    ghost predicate Valid()
      reads this
    {
      IsTree(files)
    }

    constructor ()
      ensures Valid() && files == map[[] := Dir]
    {
      files := map[[] := Dir];
    }

    /** `ensureLocalDirectory` */
    method EnsureDirectory(at: Path) returns (ok: bool)
      requires Valid()
      modifies this
      ensures Valid() && ok == CanEnsure(old(files), at)
      ensures files == if ok then Ensured(old(files), at) else old(files)
      ensures ok ==> at in files
    {
      ok := CanEnsure(files, at);
      if ok {
        EnsuredIsTree(files, at);
        files := Ensured(files, at);
      }
    }

    method Write(x: Path, data: Bytes)
      requires Valid() && x != [] && IsDir(files, Parent(x)) && (x in files ==> files[x].File?)
      modifies this
      ensures Valid() && files == old(files)[x := File(data)]
    {
      assert forall q | IsDir(files, q) :: q != x;
      files := files[x := File(data)];
    }

    method Unlink(x: Path)
      requires Valid() && x in files && files[x].File?
      modifies this
      ensures Valid() && files == old(files) - {x}
    {
      assert forall q | IsDir(files, q) :: q != x;
      files := files - {x};
    }
  }

  lemma StoreIs(s: Remote, name: Name, content: Bytes, f: Fault)
    ensures var r := Execute(s, Stor(name, content), f);
            var p := s.cwd + [name];
            && r.0.cwd == s.cwd
            && (r.0.tree == s.tree
                || (Agrees(At(s.tree, p), Some(File(content)))
                    && exists n :: 0 <= n <= |content| && r.0.tree == s.tree[p := File(content[..n])]))
            && (r.1 == Done ==> r.0.tree == s.tree[p := File(content)] && Agrees(At(s.tree, p), Some(File(content))))
            && (f == Fine ==> (r.1 == Done <==> Agrees(At(s.tree, p), Some(File(content)))))
  {
    assert content[..|content|] == content;
    if f.Cut? && f.bytes < |content| {
      assert Truncate(content, f.bytes) == content[..f.bytes];
    }
  }

  lemma MakeIs(s: Remote, part: Part, f: Fault)
    ensures var r := Execute(s, Mkd(part), f);
            && r.0.cwd == s.cwd && (r.0.tree == s.tree || r.0.tree == WithDir(s.tree, s.cwd, part))
            && (f == Fine ==> r.0.tree == WithDir(s.tree, s.cwd, part) && r.1 != Lost)
  {
  }

  lemma OneStep(d: Path, part: Part)
    ensures Resolve(d, PathArg(false, [part])) == Enter(d, part)
  {
    assert Walk(d, [part]) == Walk(Enter(d, part), [part][1..]);
  }

  lemma AlreadyThere(t0: Tree, d: Path, part: Part, t1: Tree)
    requires t1 == t0 || t1 == WithDir(t0, d, part)
    requires IsDir(t1, Enter(d, part))
    ensures t1 == WithDir(t0, d, part)
  {
  }

  class Client {
    const session: Session

    constructor (session: Session)
      ensures this.session == session
    {
      this.session := session;
    }

    method Cd(path: PathArg) returns (s: Status)
      requires session.Valid()
      modifies session
      ensures session.Valid()
      ensures session.tree == old(session.tree) && session.clock >= old(session.clock)
      ensures session.cwd == old(session.cwd) || session.cwd == Resolve(old(session.cwd), path)
      ensures (session.alive ==> old(session.alive)) && (session.alive <==> s != Lost)
      ensures s == Done ==> session.cwd == Resolve(old(session.cwd), path)
      ensures s == Failed ==> session.cwd == old(session.cwd)
      ensures s == Failed && IsDir(old(session.tree), Resolve(old(session.cwd), path)) ==>
                session.clock > 0 && session.fault(session.clock - 1) != Fine
      ensures s == Done ==> IsDir(session.tree, session.cwd)
      ensures old(session.alive) && session.NoFaults(old(session.clock)) ==>
                session.alive && (s == Done <==> IsDir(old(session.tree), Resolve(old(session.cwd), path)))
    {
      s := session.Send(Cwd(path));
      assert old(session.alive) ==> session.clock == old(session.clock) + 1;
    }

    method SwitchToParent() returns (s: Status)
      requires session.Valid()
      modifies session
      ensures session.Valid()
      ensures session.tree == old(session.tree) && session.clock >= old(session.clock)
      ensures session.cwd == old(session.cwd) || session.cwd == Parent(old(session.cwd))
      ensures (session.alive ==> old(session.alive)) && (session.alive <==> s != Lost)
      ensures s == Done ==> session.cwd == Parent(old(session.cwd))
      ensures s == Failed ==> session.cwd == old(session.cwd)
      ensures old(session.alive) && session.NoFaults(old(session.clock)) ==> s == Done
    {
      s := session.Send(Cdup);
      assert old(session.alive) ==> session.clock == old(session.clock) + 1;
    }

    /** `removeEmptyDir`: the directory is gone, or nothing changed. */
    method RemoveEmptyDir(path: PathArg) returns (s: Status)
      requires session.Valid()
      modifies session
      ensures session.Valid() && session.cwd == old(session.cwd) && session.clock >= old(session.clock)
      ensures (session.alive ==> old(session.alive)) && (session.alive <==> s != Lost)
      ensures old(session.alive) ==> session.clock > old(session.clock)
      ensures session.tree == old(session.tree) || session.tree == old(session.tree) - {Resolve(old(session.cwd), path)}
      ensures s == Done ==> session.tree == old(session.tree) - {Resolve(old(session.cwd), path)}
      ensures old(session.alive) && session.NoFaults(old(session.clock)) ==>
                session.alive && (s == Done <==> Effect(old(Remote(session.tree, session.cwd)), Rmd(path)).Some?)
    {
      s := session.Send(Rmd(path));
      assert old(session.alive) ==> session.clock == old(session.clock) + 1;
    }

    /** `remove`: the entry is gone, or nothing changed. */
    method Remove(name: Name) returns (s: Status)
      requires session.Valid()
      modifies session
      ensures session.Valid() && session.cwd == old(session.cwd) && session.clock >= old(session.clock)
      ensures (session.alive ==> old(session.alive)) && (session.alive <==> s != Lost)
      ensures old(session.alive) ==> session.clock > old(session.clock)
      ensures session.tree == old(session.tree) || session.tree == old(session.tree) - {old(session.cwd) + [name]}
      ensures s == Done ==> session.tree == old(session.tree) - {old(session.cwd) + [name]}
      ensures old(session.alive) && session.NoFaults(old(session.clock)) ==>
                session.alive && (s == Done <==> Effect(old(Remote(session.tree, session.cwd)), Dele(name)).Some?)
    {
      DeleIs(Remote(session.tree, session.cwd), name, session.fault(session.clock));
      s := session.Send(Dele(name));
      assert old(session.alive) ==> session.clock == old(session.clock) + 1;
    }

    /** `clearWorkingDir`: whatever fails, only proper descendants of the working directory can be lost;
        on success they all are, and the working directory is the same. */
    method ClearWorkingDir() returns (s: Status)
      requires session.Valid()
      modifies session
      ensures session.Valid() && session.clock >= old(session.clock)
      ensures (session.alive ==> old(session.alive)) && (session.alive <==> s != Lost)
      ensures OnlyRemovedBelow(old(session.tree), session.tree, old(session.cwd))
      ensures s == Done ==> ClearedBelow(old(session.tree), session.tree, old(session.cwd))
      ensures s == Done ==> session.cwd == old(session.cwd)
      ensures session.alive ==> old(session.cwd) <= session.cwd
      ensures old(session.alive) && session.NoFaults(old(session.clock)) ==> s == Done
      decreases Subtree(session.tree, session.cwd), 1
    {
      ghost var t0, d := session.tree, session.cwd;
      var files;
      s, files := session.List();
      if s != Done {
        return;
      }
      var i := 0;
      while i < |files|
        invariant 0 <= i <= |files|
        invariant session.Valid() && session.cwd == d && session.clock > old(session.clock)
        invariant session.alive && old(session.alive) && s == Done
        invariant IsListing(t0, d, files)
        invariant forall q :: At(session.tree, q) == if InListed(d, files, i, q) then None else At(t0, q)
      {
        ghost var t1 := session.tree;
        EntryStillThere(t0, t1, d, files, i);
        SubtreeShrinks(t0, t1, d, d);
        s := ClearEntry(files[i]);
        if s != Done { return; }
        NextEntryGone(t0, t1, session.tree, d, files, i);
        i := i + 1;
      }
      forall q ensures At(session.tree, q) == if d < q then None else At(t0, q) {
        if d < q && q in t0 {
          ListedSubtreesAreAll(t0, d, files, q);
        }
      }
    }

    /** One round of the loop: the subtree at a listed entry. */
    method ClearEntry(file: Listed) returns (s: Status)
      requires session.Valid() && session.alive
      requires At(session.tree, session.cwd + [file.name]) == Some(file.entry)
      modifies session
      ensures session.Valid() && session.clock > old(session.clock)
      ensures session.alive <==> s != Lost
      ensures OnlyRemovedBelow(old(session.tree), session.tree, old(session.cwd))
      ensures s == Done ==> RemovedAt(old(session.tree), session.tree, old(session.cwd) + [file.name])
      ensures s == Done ==> session.cwd == old(session.cwd)
      ensures session.alive ==> old(session.cwd) <= session.cwd
      ensures session.NoFaults(old(session.clock)) ==> s == Done
      decreases Subtree(session.tree, session.cwd), 0
    {
      ghost var t0, d := session.tree, session.cwd;
      ghost var p := d + [file.name];
      ResolveForms(d, p, file.name);
      if file.entry == Dir {
        s := Cd(Relative(file.name));
        if s != Done { return; }
        SubtreeShrinks(t0, t0, d, p);
        s := ClearWorkingDir();
        if s != Done { return; }
        ghost var t1 := session.tree;
        assert Parent(p) == d;
        s := SwitchToParent();
        if s != Done { return; }
        ClearedHasNoChildren(t0, t1, p);
        assert At(t1, p) == At(t0, p);
        s := RemoveEmptyDir(Relative(file.name));
        ClearThenRemove(t0, t1, session.tree, p);
      } else {
        LeafHasNoDescendants(t0, p);
        s := Remove(file.name);
        ClearThenRemove(t0, t0, session.tree, p);
      }
    }

    method Pwd() returns (s: Status, path: Path)
      requires session.Valid()
      modifies session`alive, session`clock
      ensures !old(session.alive) ==> session.clock == old(session.clock) && !session.alive && s == Lost
      ensures old(session.alive) ==> session.clock == old(session.clock) + 1
      ensures (session.alive <==> s != Lost) && path == session.cwd
      ensures old(session.alive) ==> (s == Done <==> session.fault(old(session.clock)) == Fine)
    {
      s := session.Query();
      path := session.cwd;
    }

    /** The `finally` part of `_exitAtCurrentDirectory`: an open client tries to go back. */
    method GoBack(userDir: Path)
      requires session.Valid()
      modifies session
      ensures session.Valid() && session.tree == old(session.tree) && session.clock >= old(session.clock)
      ensures session.alive ==> old(session.alive)
      ensures !old(session.alive) ==> session.clock == old(session.clock)
      ensures session.alive && session.cwd != userDir ==>
                && session.cwd == old(session.cwd)
                && (IsDir(session.tree, userDir) ==>
                      session.clock > 0 && session.fault(session.clock - 1) != Fine)
      ensures old(session.alive) && session.NoFaults(old(session.clock)) ==>
                && session.alive
                && session.cwd == if IsDir(session.tree, userDir) then userDir else old(session.cwd)
    {
      ResolveForms(session.cwd, userDir, "a");
      if session.alive {
        var _ := Cd(Absolute(userDir));
      }
    }

    /** `removeDir`.  Whatever fails, nothing outside the target subtree changes, and an open client
        is back in the caller's directory unless that one was deleted or going back failed.
        Without faults the call succeeds exactly if the target is a directory. */
    method RemoveDir(path: PathArg) returns (s: Status)
      requires session.Valid()
      modifies session
      ensures session.Valid() && session.clock >= old(session.clock)
      ensures var t := Resolve(old(session.cwd), path);
              forall q :: At(session.tree, q) == At(old(session.tree), q) || (t <= q && At(session.tree, q) == None)
      ensures var t := Resolve(old(session.cwd), path);
              !IsDir(old(session.tree), t) ==> session.tree == old(session.tree) && s != Done
      ensures var t := Resolve(old(session.cwd), path);
              s == Done ==> if t == [] then ClearedBelow(old(session.tree), session.tree, t)
                            else RemovedAt(old(session.tree), session.tree, t)
      ensures session.alive && session.cwd != old(session.cwd) ==>
                old(session.cwd) !in session.tree || (session.clock > 0 && session.fault(session.clock - 1) != Fine)
      ensures old(session.alive) && session.NoFaults(old(session.clock)) ==>
                var t := Resolve(old(session.cwd), path);
                && session.alive
                && (s == Done <==> IsDir(old(session.tree), t))
                && session.cwd == if old(session.cwd) in session.tree then old(session.cwd) else Parent(t)
    {
      ghost var t0 := session.tree;
      var userDir;
      s, userDir := Pwd();
      if s != Done { return; }
      s := RemoveTarget(path);
      assert session.tree[[]] == Dir;
      assert At(session.tree, userDir) == At(t0, userDir) || userDir !in session.tree;
      GoBack(userDir);
    }

    /** The body that `removeDir` runs before going back. */
    method RemoveTarget(path: PathArg) returns (s: Status)
      requires session.Valid() && session.alive
      modifies session
      ensures session.Valid() && session.clock >= old(session.clock)
      ensures session.alive <==> s != Lost
      ensures var t := Resolve(old(session.cwd), path);
              forall q :: At(session.tree, q) == At(old(session.tree), q) || (t <= q && At(session.tree, q) == None)
      ensures var t := Resolve(old(session.cwd), path);
              !IsDir(old(session.tree), t) ==>
                session.tree == old(session.tree) && s != Done && (session.alive ==> session.cwd == old(session.cwd))
      ensures var t := Resolve(old(session.cwd), path);
              s == Done ==> (if t == [] then ClearedBelow(old(session.tree), session.tree, t)
                             else RemovedAt(old(session.tree), session.tree, t))
                            && session.cwd == Parent(t)
      ensures session.NoFaults(old(session.clock)) ==>
                session.alive && (s == Done <==> IsDir(old(session.tree), Resolve(old(session.cwd), path)))
    {
      s := Cd(path);
      if s == Done {
        s := RemoveWorkingDir();
      }
    }

    /** `removeDir` once it is in the target directory. */
    method RemoveWorkingDir() returns (s: Status)
      requires session.Valid() && session.alive
      modifies session
      ensures session.Valid() && session.clock >= old(session.clock)
      ensures session.alive <==> s != Lost
      ensures var t := old(session.cwd);
              forall q :: At(session.tree, q) == At(old(session.tree), q) || (t <= q && At(session.tree, q) == None)
      ensures var t := old(session.cwd);
              s == Done ==> (if t == [] then ClearedBelow(old(session.tree), session.tree, t)
                             else RemovedAt(old(session.tree), session.tree, t))
                            && session.cwd == Parent(t)
      ensures session.NoFaults(old(session.clock)) ==> s == Done
    {
      ghost var t0, t := session.tree, session.cwd;
      var absolutePath;
      s, absolutePath := Pwd();
      if s != Done { return; }
      s := ClearWorkingDir();
      if s != Done || absolutePath == [] { return; }
      ghost var t1 := session.tree;
      s := SwitchToParent();
      if s != Done { return; }
      assert session.cwd == Parent(t) && session.cwd != t;
      ResolveForms(session.cwd, t, "a");
      ClearedHasNoChildren(t0, t1, t);
      assert At(t1, t) == At(t0, t);
      s := RemoveEmptyDir(Absolute(absolutePath));
      ClearThenRemove(t0, t1, session.tree, t);
    }

    // -------------------------------------------------------------- uploads

    /** `uploadFrom` for a local file: the whole content arrives, or at most a part of it. */
    method UploadFrom(content: Bytes, name: Name) returns (s: Status)
      requires session.Valid()
      modifies session
      ensures session.Valid() && session.cwd == old(session.cwd) && session.clock >= old(session.clock)
      ensures (session.alive ==> old(session.alive)) && (session.alive <==> s != Lost)
      ensures var p := old(session.cwd) + [name];
              || session.tree == old(session.tree)
              || (&& Agrees(At(old(session.tree), p), Some(File(content)))
                  && exists n :: 0 <= n <= |content| && session.tree == old(session.tree)[p := File(content[..n])])
      ensures var p := old(session.cwd) + [name];
              s == Done ==> session.tree == old(session.tree)[p := File(content)]
                            && Agrees(At(old(session.tree), p), Some(File(content)))
      ensures var p := old(session.cwd) + [name];
              old(session.alive) && session.NoFaults(old(session.clock)) ==>
                session.alive && (s == Done <==> Agrees(At(old(session.tree), p), Some(File(content))))
    {
      StoreIs(Remote(session.tree, session.cwd), name, content, session.fault(session.clock));
      s := session.Send(Stor(name, content));
      assert old(session.alive) ==> session.clock == old(session.clock) + 1;
    }

    /** `_openDir`: an error of MKD is ignored, the CWD after it decides. */
    method OpenDir(part: Part) returns (s: Status)
      requires session.Valid()
      modifies session
      ensures session.Valid() && session.clock >= old(session.clock)
      ensures (session.alive ==> old(session.alive)) && (session.alive <==> s != Lost)
      ensures session.tree == old(session.tree) || session.tree == WithDir(old(session.tree), old(session.cwd), part)
      ensures session.cwd == old(session.cwd) || session.cwd == Enter(old(session.cwd), part)
      ensures s == Failed ==> session.cwd == old(session.cwd)
      ensures s == Done ==> && session.cwd == Enter(old(session.cwd), part)
                            && IsDir(session.tree, session.cwd)
                            && session.tree == WithDir(old(session.tree), old(session.cwd), part)
      ensures old(session.alive) && session.NoFaults(old(session.clock)) ==>
                && session.alive
                && (s == Done <==>
                      IsDir(WithDir(old(session.tree), old(session.cwd), part), Enter(old(session.cwd), part)))
    {
      MakeIs(Remote(session.tree, session.cwd), part, session.fault(session.clock));
      ghost var t0, d := session.tree, session.cwd;
      s := session.Send(Mkd(part));
      assert old(session.alive) ==> session.clock == old(session.clock) + 1;
      if s == Lost { return; }
      OneStep(d, part);
      s := Cd(PathArg(false, [part]));
      if s == Done {
        AlreadyThere(t0, d, part, session.tree);
      }
    }

    /** `_uploadToWorkingDir` */
    method UploadToWorkingDir(l: Tree, a: Path) returns (s: Status)
      requires session.Valid() && session.alive && IsTree(l)
      modifies session
      ensures session.Valid() && session.clock >= old(session.clock)
      ensures session.alive <==> s != Lost
      ensures PartlyOverlaid(old(session.tree), session.tree, l, a, old(session.cwd), false, false)
      ensures session.alive ==> old(session.cwd) <= session.cwd
      ensures s == Done ==> && session.cwd == old(session.cwd)
                            && Merged(old(session.tree), session.tree, l, a, old(session.cwd), false)
                            && NoClash(old(session.tree), l, a, old(session.cwd), false)
      ensures session.NoFaults(old(session.clock)) ==>
                && session.alive
                && (s == Done <==> IsDir(l, a) && NoClash(old(session.tree), l, a, old(session.cwd), false))
      decreases Subtree(l, a), 1
    {
      ghost var t0, d := session.tree, session.cwd;
      if !IsDir(l, a) {
        return Failed;
      }
      s := Done;
      var names := ReadDir(l, a);
      var i := 0;
      while i < |names|
        invariant 0 <= i <= |names| && IsReadDir(l, a, names)
        invariant session.Valid() && session.alive && session.cwd == d && session.clock >= old(session.clock)
        invariant UploadedSoFar(t0, session.tree, l, a, d, names, i)
        invariant NoClashSoFar(t0, l, a, d, names, i) && s == Done
      {
        ghost var t1 := session.tree;
        NoClashNext(t0, t1, l, a, d, names, i);
        SubtreeOfEntry(l, a, names[i]);
        s := UploadEntry(l, a, names[i]);
        PartlyNext(t0, t1, session.tree, l, a, d, names, i, false);
        if s != Done {
          AllNamesClash(t0, l, a, d, names);
          ClashStays(t0, l, a, d, names, i + 1);
          return;
        }
        UploadedNext(t0, t1, session.tree, l, a, d, names, i);
        i := i + 1;
      }
      AllNamesUploaded(t0, session.tree, l, a, d, names);
      AllNamesClash(t0, l, a, d, names);
    }

    /** One round of the loop: the local file or directory `n`. */
    method UploadEntry(l: Tree, a: Path, n: Name) returns (s: Status)
      requires session.Valid() && session.alive && IsTree(l) && a in l && a + [n] in l
      modifies session
      ensures session.Valid() && session.clock >= old(session.clock)
      ensures session.alive <==> s != Lost
      ensures PartlyOverlaid(old(session.tree), session.tree, l, a + [n], old(session.cwd) + [n], true, false)
      ensures session.alive ==> old(session.cwd) <= session.cwd
      ensures s == Done ==> && session.cwd == old(session.cwd)
                            && Merged(old(session.tree), session.tree, l, a + [n], old(session.cwd) + [n], true)
      ensures s == Done ==> NoClash(old(session.tree), l, a + [n], old(session.cwd) + [n], true)
      ensures session.NoFaults(old(session.clock)) ==>
                && session.alive
                && (s == Done <==> NoClash(old(session.tree), l, a + [n], old(session.cwd) + [n], true))
      decreases Subtree(l, a + [n]), 2
    {
      ghost var t0, d := session.tree, session.cwd;
      ghost var x, p := a + [n], d + [n];
      match l[a + [n]] {
        case File(content) =>
          s := UploadFrom(content, n);
          FileIsLeaf(t0, session.tree, l, x, p, content, false);
        case Dir =>
          s := OpenDir(Sub(n));
          FolderOpened(t0, session.tree, l, x, p, false);
          if s != Done { return; }
          ghost var t1 := session.tree;
          s := UploadToWorkingDir(l, a + [n]);
          FolderThenBelow(t0, t1, session.tree, l, x, p, false);
          if s != Done { return; }
          assert Parent(p) == d;
          s := SwitchToParent();
        case _ =>
          s := Done;
          OtherIsNothing(t0, l, x, p);
      }
    }

    /** `ensureDir` */
    method EnsureDir(path: PathArg) returns (s: Status)
      requires session.Valid()
      modifies session
      ensures session.Valid() && session.clock >= old(session.clock)
      ensures if old(session.alive) then session.alive <==> s != Lost else !session.alive
      ensures var start := if path.absolute then [] else old(session.cwd);
              exists k :: 0 <= k <= |path.parts| && session.tree == MakeDirs(old(session.tree), start, path.parts[..k])
      ensures s == Done ==> var start := if path.absolute then [] else old(session.cwd);
              && session.cwd == Resolve(old(session.cwd), path)
              && session.tree == MakeDirs(old(session.tree), start, path.parts)
              && CanMake(old(session.tree), start, path.parts)
      ensures old(session.alive) && session.NoFaults(old(session.clock)) ==>
              var start := if path.absolute then [] else old(session.cwd);
              session.alive && (s == Done <==> CanMake(old(session.tree), start, path.parts))
    {
      ghost var t0 := session.tree;
      ghost var start := if path.absolute then [] else session.cwd;
      s := Done;
      if path.absolute {
        s := Cd(PathArg(true, []));
        if s != Done {
          assert MakeDirs(t0, start, path.parts[..0]) == t0;
          return;
        }
      }
      s := OpenDirs(path.parts);
    }

    /** The loop of `ensureDir` over the names of a path. */
    method OpenDirs(parts: seq<Part>) returns (s: Status)
      requires session.Valid()
      modifies session
      ensures session.Valid() && session.clock >= old(session.clock)
      ensures if old(session.alive) then session.alive <==> s != Lost else !session.alive
      ensures exists k :: 0 <= k <= |parts|
                && session.tree == MakeDirs(old(session.tree), old(session.cwd), parts[..k])
      ensures s == Done ==>
              && session.cwd == Walk(old(session.cwd), parts)
              && session.tree == MakeDirs(old(session.tree), old(session.cwd), parts)
              && CanMake(old(session.tree), old(session.cwd), parts)
      ensures old(session.alive) && session.NoFaults(old(session.clock)) ==>
              session.alive && (s == Done <==> CanMake(old(session.tree), old(session.cwd), parts))
    {
      ghost var t0, d := session.tree, session.cwd;
      s := Done;
      assert parts[0..] == parts;
      var i := 0;
      while i < |parts|
        invariant 0 <= i <= |parts|
        invariant session.Valid() && session.clock >= old(session.clock) && s == Done
        invariant session.alive == old(session.alive)
        invariant OnTheWay(t0, d, parts, i, session.tree, session.cwd)
      {
        ghost var t1, d1 := session.tree, session.cwd;
        s := OpenDir(parts[i]);
        WayNext(t0, d, parts, i, t1, d1);
        if s != Done { return; }
        i := i + 1;
      }
      assert parts[..i] == parts && parts[i..] == [];
    }

    /** `uploadFromDir`.  On success the remote tree is the overlay of the local one on the target
        directory, created if necessary; without faults this happens exactly if the local directory
        exists and no names clash.  Whatever fails, nothing is removed, nothing outside the target and
        the path to it changes, and the caller's directory is current again unless going back failed. */
    method UploadFromDir(l: Tree, a: Path, remote: PathArg) returns (s: Status)
      requires session.Valid() && IsTree(l)
      modifies session
      ensures session.Valid() && session.clock >= old(session.clock) && (s == Done ==> old(session.alive))
      ensures var start := if remote.absolute then [] else old(session.cwd);
              exists k :: 0 <= k <= |remote.parts|
                && PartlyOverlaid(MakeDirs(old(session.tree), start, remote.parts[..k]), session.tree,
                                  l, a, Resolve(old(session.cwd), remote), false, false)
      ensures s == Done ==>
              var start := if remote.absolute then [] else old(session.cwd);
              Overlaid(MakeDirs(old(session.tree), start, remote.parts), session.tree,
                       l, a, Resolve(old(session.cwd), remote), false)
      ensures session.alive && session.cwd != old(session.cwd) ==>
                session.clock > 0 && session.fault(session.clock - 1) != Fine
      ensures old(session.alive) && session.NoFaults(old(session.clock)) ==>
              var start := if remote.absolute then [] else old(session.cwd);
              && session.alive && session.cwd == old(session.cwd)
              && (s == Done <==>
                    && CanMake(old(session.tree), start, remote.parts) && IsDir(l, a)
                    && NoClash(MakeDirs(old(session.tree), start, remote.parts), l, a,
                               Resolve(old(session.cwd), remote), false))
    {
      ghost var t0, d := session.tree, session.cwd;
      ghost var start := if remote.absolute then [] else d;
      ghost var target := Resolve(d, remote);
      var userDir;
      s, userDir := Pwd();
      if s != Done {
        assert MakeDirs(t0, start, remote.parts[..0]) == t0;
        return;
      }
      ghost var k;
      s, k := UploadInto(l, a, remote);
      MakeDirsAdds(t0, start, remote.parts[..k]);
      DirsSurvive(MakeDirs(t0, start, remote.parts[..k]), session.tree, l, a, target, false, false, d);
      GoBack(userDir);
    }

    /** The body that `uploadFromDir` runs before going back; `k` names of the path were entered. */
    method UploadInto(l: Tree, a: Path, remote: PathArg) returns (s: Status, ghost k: nat)
      requires session.Valid() && session.alive && IsTree(l)
      modifies session
      ensures session.Valid() && session.clock >= old(session.clock)
      ensures session.alive <==> s != Lost
      ensures var start := if remote.absolute then [] else old(session.cwd);
              k <= |remote.parts|
                && PartlyOverlaid(MakeDirs(old(session.tree), start, remote.parts[..k]), session.tree,
                                  l, a, Resolve(old(session.cwd), remote), false, false)
      ensures s == Done ==>
              var start := if remote.absolute then [] else old(session.cwd);
              Overlaid(MakeDirs(old(session.tree), start, remote.parts), session.tree,
                       l, a, Resolve(old(session.cwd), remote), false)
      ensures session.NoFaults(old(session.clock)) ==>
              var start := if remote.absolute then [] else old(session.cwd);
              && session.alive
              && (s == Done <==>
                    && CanMake(old(session.tree), start, remote.parts) && IsDir(l, a)
                    && NoClash(MakeDirs(old(session.tree), start, remote.parts), l, a,
                               Resolve(old(session.cwd), remote), false))
    {
      s := EnsureDir(remote);
      ghost var t1 := session.tree;
      k :| k <= |remote.parts|
           && t1 == MakeDirs(old(session.tree), if remote.absolute then [] else old(session.cwd), remote.parts[..k]);
      if s == Done {
        k := |remote.parts|;
        assert remote.parts[..k] == remote.parts;
        s := UploadToWorkingDir(l, a);
        if s == Done {
          MergeIsOverlay(t1, session.tree, l, a, Resolve(old(session.cwd), remote), false);
        }
      }
    }

    // -------------------------------------------------------------- downloads

    /** `downloadTo` for a local file that is written from the start: "w" creates or empties it, and
        if the download fails without any data the file is removed. */
    method DownloadTo(disk: LocalDisk, x: Path, name: Name) returns (s: Status)
      requires session.Valid() && disk.Valid()
      modifies session`alive, session`clock, disk
      ensures disk.Valid() && session.clock >= old(session.clock)
      ensures if old(session.alive) then session.alive <==> s != Lost else !session.alive && s != Done
      ensures var content := ContentAt(session.tree, session.cwd + [name]);
              || disk.files == old(disk.files)
              || (&& Agrees(At(old(disk.files), x), Some(File(content)))
                  && (|| (exists n :: 0 <= n <= |content| && disk.files == old(disk.files)[x := File(content[..n])])
                      || disk.files == old(disk.files) - {x}))
      ensures s == Done ==>
                && At(session.tree, session.cwd + [name]) == Some(File(ContentAt(session.tree, session.cwd + [name])))
                && disk.files == old(disk.files)[x := File(ContentAt(session.tree, session.cwd + [name]))]
                && IsDir(old(disk.files), Parent(x)) && Agrees(At(old(disk.files), x), Some(File([])))
      ensures s != Done && IsDir(old(disk.files), Parent(x)) && (x in old(disk.files) ==> old(disk.files)[x].File?) ==>
                At(disk.files, x) != Some(File([]))
      ensures old(session.alive) && session.NoFaults(old(session.clock)) ==>
                && session.alive
                && (s == Done <==>
                      && IsDir(old(disk.files), Parent(x)) && (x in old(disk.files) ==> old(disk.files)[x].File?)
                      && IsFile(session.tree, session.cwd + [name]))
    {
      if !(IsDir(disk.files, Parent(x)) && (x in disk.files ==> disk.files[x].File?)) {
        return Failed;
      }
      ghost var f0 := disk.files;
      ghost var content := ContentAt(session.tree, session.cwd + [name]);
      disk.Write(x, []);
      var data;
      s, data := session.Retrieve(name);
      assert data == content[..|data|];
      disk.Write(x, data);
      if s != Done && data == [] {
        disk.Unlink(x);
      }
      assert f0[x := File([])][x := File(data)] == f0[x := File(data)];
    }

    /** `downloadToDir`.  The server's tree stays as it is.  On success the local tree is the merge of
        the remote directory into the local one, created if necessary - which is the overlay exactly if
        no names clash.  Without faults the call succeeds exactly if the remote path is a directory, the
        local one can be provided and nothing blocks.  The caller's directory is current again unless
        going back failed. */
    method DownloadToDir(disk: LocalDisk, at: Path, remote: PathArg) returns (s: Status)
      requires session.Valid() && disk.Valid()
      modifies session, disk
      ensures session.Valid() && disk.Valid() && session.tree == old(session.tree)
      ensures session.clock >= old(session.clock)
      ensures var target := Resolve(old(session.cwd), remote);
              || disk.files == old(disk.files)
              || (&& CanEnsure(old(disk.files), at)
                  && PartlyOverlaid(Ensured(old(disk.files), at), disk.files, session.tree, target, at, false, true))
      ensures s == Done ==>
              var target := Resolve(old(session.cwd), remote);
              && IsDir(session.tree, target) && CanDownload(old(disk.files), session.tree, target, at)
              && Merged(Ensured(old(disk.files), at), disk.files, session.tree, target, at, false)
              && (Overlaid(Ensured(old(disk.files), at), disk.files, session.tree, target, at, false) <==>
                    NoClash(Ensured(old(disk.files), at), session.tree, target, at, false))
      ensures session.alive && session.cwd != old(session.cwd) ==>
                session.clock > 0 && session.fault(session.clock - 1) != Fine
      ensures old(session.alive) && session.NoFaults(old(session.clock)) ==>
              var target := Resolve(old(session.cwd), remote);
              && session.alive && session.cwd == old(session.cwd)
              && (s == Done <==>
                    IsDir(session.tree, target) && CanDownload(old(disk.files), session.tree, target, at))
    {
      ghost var f0 := disk.files;
      ghost var target := Resolve(session.cwd, remote);
      var userDir;
      s, userDir := Pwd();
      if s != Done { return; }
      if remote != PathArg(false, []) {
        s := Cd(remote);
      }
      if s == Done {
        s := DownloadFromWorkingDir(disk, at);
        if s == Done {
          MergeIsOverlay(Ensured(f0, at), disk.files, session.tree, target, at, false);
        }
      }
      GoBack(userDir);
    }

    /** `_downloadFromWorkingDir` */
    method DownloadFromWorkingDir(disk: LocalDisk, at: Path) returns (s: Status)
      requires session.Valid() && session.alive && disk.Valid()
      modifies session, disk
      ensures session.Valid() && session.tree == old(session.tree) && session.clock >= old(session.clock)
      ensures disk.Valid() && (session.alive <==> s != Lost)
      ensures session.alive ==> old(session.cwd) <= session.cwd
      ensures if CanEnsure(old(disk.files), at)
              then PartlyOverlaid(Ensured(old(disk.files), at), disk.files, session.tree, old(session.cwd), at,
                                  false, true)
              else disk.files == old(disk.files) && s == Failed
      ensures s == Done ==> && session.cwd == old(session.cwd)
                            && Merged(Ensured(old(disk.files), at), disk.files, session.tree, old(session.cwd), at, false)
                            && CanDownload(old(disk.files), session.tree, old(session.cwd), at)
      ensures session.NoFaults(old(session.clock)) ==>
                && session.alive
                && (s == Done <==> CanDownload(old(disk.files), session.tree, old(session.cwd), at))
      decreases Subtree(session.tree, session.cwd), 1
    {
      ghost var f0 := disk.files;
      ghost var t, d := session.tree, session.cwd;
      var ok := disk.EnsureDirectory(at);
      if !ok {
        return Failed;
      }
      ghost var f1 := disk.files;
      var files;
      s, files := session.List();
      if s != Done { return; }
      ghost var names := Names(files);
      ListingIsReadDir(t, d, files);
      var i := 0;
      while i < |files|
        invariant 0 <= i <= |files| && IsListing(t, d, files) && IsReadDir(t, d, names) && names == Names(files)
        invariant session.Valid() && session.alive && session.tree == t && session.cwd == d
        invariant session.clock >= old(session.clock) && s == Done
        invariant disk.Valid() && at in disk.files
        invariant UploadedSoFar(f1, disk.files, t, d, at, names, i) && NoBlockSoFar(f1, t, d, at, names, i)
      {
        ghost var f2 := disk.files;
        NoBlockNext(f1, f2, t, d, at, names, i);
        SubtreeShrinks(t, t, d, d);
        s := DownloadEntry(disk, at, files[i]);
        PartlyNext(f1, f2, disk.files, t, d, at, names, i, true);
        if s != Done {
          AllNamesBlock(f1, t, d, at, names);
          BlockStays(f1, t, d, at, names, i + 1);
          return;
        }
        UploadedNext(f1, f2, disk.files, t, d, at, names, i);
        OutsideEntry(f2, disk.files, t, d, at, names[i]);
        i := i + 1;
      }
      AllNamesUploaded(f1, disk.files, t, d, at, names);
      AllNamesBlock(f1, t, d, at, names);
    }

    /** One round of the loop: directories are descended into, files fetched, links skipped. */
    method DownloadEntry(disk: LocalDisk, at: Path, file: Listed) returns (s: Status)
      requires session.Valid() && session.alive && disk.Valid() && at in disk.files
      requires At(session.tree, session.cwd + [file.name]) == Some(file.entry)
      modifies session, disk
      ensures session.Valid() && session.tree == old(session.tree) && session.clock >= old(session.clock)
      ensures disk.Valid() && (session.alive <==> s != Lost)
      ensures session.alive ==> old(session.cwd) <= session.cwd
      ensures PartlyOverlaid(old(disk.files), disk.files, session.tree,
                             old(session.cwd) + [file.name], at + [file.name], true, true)
      ensures s == Done ==> && session.cwd == old(session.cwd)
                            && Merged(old(disk.files), disk.files, session.tree,
                                      old(session.cwd) + [file.name], at + [file.name], true)
      ensures s == Done ==>
                NoBlock(old(disk.files), session.tree, old(session.cwd) + [file.name], at + [file.name], true)
      ensures session.NoFaults(old(session.clock)) ==>
                && session.alive
                && (s == Done <==>
                      NoBlock(old(disk.files), session.tree, old(session.cwd) + [file.name], at + [file.name], true))
      decreases Subtree(session.tree, session.cwd), 0
    {
      ghost var f0 := disk.files;
      ghost var t, d := session.tree, session.cwd;
      var n := file.name;
      ghost var p, x := d + [n], at + [n];
      assert Parent(x) == at && Parent(p) == d;
      match file.entry {
        case Dir =>
          ResolveForms(d, p, n);
          EnsureEntry(f0, at, n);
          FolderBlocked(f0, t, p, at, n);
          FolderSame(f0, t, p, x);
          s := Cd(Relative(n));
          if s != Done { return; }
          SubtreeShrinks(t, t, d, p);
          s := DownloadFromWorkingDir(disk, at + [n]);
          FolderDownloaded(f0, disk.files, t, p, x);
          if s != Done { return; }
          s := SwitchToParent();
        case File(content) =>
          s := DownloadTo(disk, at + [n], n);
          FileIsLeaf(f0, disk.files, t, p, x, content, true);
          FileBlocked(f0, t, p, at, n);
        case _ =>
          s := Done;
          OtherIsNothing(f0, t, p, x);
          OtherNotBlocked(f0, t, p, x);
      }
    }
  }

  /** A directory of files and directories, uploaded to a place with nothing below it and downloaded
      from there to a place with nothing below it, is the original one.  Without faults this fails
      exactly if there is no such local directory, or if something that is no directory is on the way to
      one of the two places or is that place - the local one only if there is anything to download. */
  method UploadThenDownload(client: Client, l: Tree, a: Path, remote: PathArg, disk: LocalDisk, at: Path)
    returns (s: Status)
    requires client.session.Valid() && disk.Valid() && IsTree(l)
    requires forall q | q in l && a < q :: l[q].Dir? || l[q].File?
    requires OnlyDown(remote.parts)
    requires NothingBelow(client.session.tree, Resolve(client.session.cwd, remote)) && NothingBelow(disk.files, at)
    modifies client.session, disk
    ensures client.session.Valid() && disk.Valid() && client.session.clock >= old(client.session.clock)
    ensures s == Done && (remote.absolute || client.session.NoFaults(old(client.session.clock))) ==>
              forall rest | rest != [] :: At(disk.files, at + rest) == At(l, a + rest)
    ensures old(client.session.alive) && client.session.NoFaults(old(client.session.clock)) ==>
              var start := if remote.absolute then [] else old(client.session.cwd);
              && client.session.alive
              && (s == Done <==>
                    && IsDir(l, a) && CanMake(old(client.session.tree), start, remote.parts)
                    && CanEnsure(old(disk.files), at)
                    && (IsDir(Ensured(old(disk.files), at), at) || NoChildren(l, a)))
  {
    var session := client.session;
    ghost var t0, f0, d := session.tree, disk.files, Resolve(session.cwd, remote);
    ghost var start := if remote.absolute then [] else session.cwd;
    ghost var t1, clock0 := MakeDirs(t0, start, remote.parts), session.clock;
    NothingMadeBelow(t0, start, remote.parts);
    NothingClashes(t1, l, a, d);
    s := client.UploadFromDir(l, a, remote);
    if s != Done { return; }
    ghost var t2, fine := session.tree, session.NoFaults(clock0);
    ghost var here := Resolve(session.cwd, remote);
    s := client.DownloadToDir(disk, at, remote);
    assert session.NoFaults(clock0) ==> fine;
    if here == d {
      if s == Done { SameAfterRoundTrip(t1, t2, l, a, d, f0, disk.files, at); }
      if CanMake(t0, start, remote.parts) { CanDownloadBack(t0, start, remote.parts, t2, l, a, f0, at); }
    }
  }

  lemma SameAfterRoundTrip(t1: Tree, t2: Tree, l: Tree, a: Path, d: Path, f0: Tree, f1: Tree, at: Path)
    requires forall q | q in l && a < q :: l[q].Dir? || l[q].File?
    requires NothingBelow(t1, d) && NothingBelow(f0, at)
    requires Overlaid(t1, t2, l, a, d, false) && Merged(Ensured(f0, at), f1, t2, d, at, false)
    ensures forall rest | rest != [] :: At(f1, at + rest) == At(l, a + rest)
  {
    NothingEnsuredBelow(f0, at);
    forall rest | rest != [] ensures At(f1, at + rest) == At(l, a + rest) {
      OverlayThenMerge(l, a, t1, t2, d, Ensured(f0, at), f1, at, rest);
    }
  }

  lemma CanDownloadBack(t0: Tree, start: Path, parts: seq<Part>, t2: Tree, l: Tree, a: Path, f0: Tree, at: Path)
    requires IsTree(t0) && IsDir(t0, start) && CanMake(t0, start, parts) && IsTree(t2) && IsTree(f0)
    requires forall q | q in l && a < q :: l[q].Dir? || l[q].File?
    requires NothingBelow(MakeDirs(t0, start, parts), Walk(start, parts)) && NothingBelow(f0, at)
    requires Overlaid(MakeDirs(t0, start, parts), t2, l, a, Walk(start, parts), false)
    ensures var d := Walk(start, parts);
            IsDir(t2, d) && CanDownload(f0, t2, d, at) <==>
              CanEnsure(f0, at) && (IsDir(Ensured(f0, at), at) || NoChildren(l, a))
  {
    var t1, d := MakeDirs(t0, start, parts), Walk(start, parts);
    MakeDirsKeepsTree(t0, start, parts);
    assert At(t2, d) == At(t1, d);
    SameChildren(t1, t2, l, a, d);
    if CanEnsure(f0, at) {
      EnsuredIsTree(f0, at);
      NothingEnsuredBelow(f0, at);
      EmptyBlocks(Ensured(f0, at), t2, d, at);
    }
  }

  /** `t` and `p` are the tree and the directory after entering the first `i` names. */
  ghost predicate OnTheWay(t0: Tree, d: Path, parts: seq<Part>, i: nat, t: Tree, p: Path)
    requires i <= |parts|
  {
    && t == MakeDirs(t0, d, parts[..i]) && p == Walk(d, parts[..i])
    && (CanMake(t, p, parts[i..]) <==> CanMake(t0, d, parts))
  }

  lemma WayNext(t0: Tree, d: Path, parts: seq<Part>, i: nat, t: Tree, p: Path)
    requires i < |parts| && OnTheWay(t0, d, parts, i, t, p)
    ensures var t1, p1 := WithDir(t, p, parts[i]), Enter(p, parts[i]);
            && t1 == MakeDirs(t0, d, parts[..i + 1]) && p1 == Walk(d, parts[..i + 1])
            && (IsDir(t1, p1) ==> OnTheWay(t0, d, parts, i + 1, t1, p1))
            && (!IsDir(t1, p1) ==> !CanMake(t0, d, parts))
  {
    assert parts[..i] + [parts[i]] == parts[..i + 1];
    assert parts[i..] == [parts[i]] + parts[i + 1..];
    MakeDirsSnoc(t0, d, parts[..i], parts[i]);
  }
}
