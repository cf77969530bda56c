/** The remote file tree as the commands of src/Client.ts see it: a finite tree, a working directory,
    and a connection on which any command may fail. */
module RemoteTree {
  import opened ReplyParser

  /** Names that can be listed and passed to commands as they are. */
  type Name = n: string | n != "" && '/' !in n && n != "." && n != ".." && n[0] != ' ' witness "a"

  type Path = seq<Name>

  newtype Byte = b: int | 0 <= b < 0x100

  type Bytes = seq<Byte>

  /** Symbolic links and entries of unknown type are leaves. */
  datatype Entry = Dir | File(content: Bytes) | Link(target: string) | Unknown

  type Tree = map<Path, Entry>

  function At(t: Tree, p: Path): Option<Entry> {
    if p in t then Some(t[p]) else None
  }

  function Parent(p: Path): Path {
    if p == [] then [] else p[..|p| - 1]
  }

  predicate IsDir(t: Tree, p: Path) {
    p in t && t[p] == Dir
  }

  predicate IsFile(t: Tree, p: Path) {
    p in t && t[p].File?
  }

  /** What RETR of a path can yield. */
  function ContentAt(t: Tree, p: Path): Bytes {
    if IsFile(t, p) then t[p].content else []
  }

  /** The root is a directory and so is every parent. */
  ghost predicate IsTree(t: Tree) {
    IsDir(t, []) && forall p {:trigger Parent(p)} | p in t && p != [] :: IsDir(t, Parent(p))
  }

  /** No entry has `p` as its parent. */
  predicate NoChildren(t: Tree, p: Path) {
    forall q {:trigger Parent(q)} | q in t && q != [] :: Parent(q) != p
  }

  // ---------------------------------------------------------------- path arguments

  datatype Part = Up | Sub(name: Name)

  /** A path argument such as "/a/b", "a" or "../c". */
  datatype PathArg = PathArg(absolute: bool, parts: seq<Part>)

  function Enter(p: Path, part: Part): Path {
    match part case Up => Parent(p) case Sub(n) => p + [n]
  }

  function Walk(p: Path, parts: seq<Part>): Path
    decreases |parts|
  {
    if parts == [] then p else Walk(Enter(p, parts[0]), parts[1..])
  }

  function Resolve(cwd: Path, arg: PathArg): Path {
    Walk(if arg.absolute then [] else cwd, arg.parts)
  }

  function Subs(p: Path): (parts: seq<Part>)
    ensures |parts| == |p|
  {
    if p == [] then [] else [Sub(p[0])] + Subs(p[1..])
  }

  /** The absolute path reported by PWD, used as an argument. */
  function Absolute(p: Path): PathArg {
    PathArg(true, Subs(p))
  }

  function Relative(n: Name): PathArg {
    PathArg(false, [Sub(n)])
  }

  lemma WalkCons(p: Path, part: Part, parts: seq<Part>)
    ensures Walk(p, [part] + parts) == Walk(Enter(p, part), parts)
  {
    assert ([part] + parts)[1..] == parts;
  }

  lemma {:induction false} WalkSubs(p: Path, q: Path)
    ensures Walk(p, Subs(q)) == p + q
    decreases |q|
  {
    if q == [] {
      assert p + q == p;
    } else {
      var p1, rest := p + [q[0]], q[1..];
      WalkSubs(p1, rest);
      assert Subs(q) == [Sub(q[0])] + Subs(rest);
      WalkCons(p, Sub(q[0]), Subs(rest));
      assert p1 + rest == p + q;
    }
  }

  lemma ResolveForms(cwd: Path, p: Path, n: Name)
    ensures Resolve(cwd, Absolute(p)) == p && Resolve(cwd, Relative(n)) == cwd + [n]
  {
    WalkSubs([], p);
    assert [] + p == p;
    assert Walk(cwd, [Sub(n)]) == Walk(cwd + [n], [Sub(n)][1..]);
  }

  // ---------------------------------------------------------------- commands

  datatype Command =
    | Cwd(path: PathArg)
    | Cdup
    | Mkd(part: Part)
    | Rmd(path: PathArg)
    | Dele(name: Name)
    | Stor(name: Name, content: Bytes)

  datatype Remote = Remote(tree: Tree, cwd: Path)

  /** What a command does on the server; None if the server has to refuse it. */
  function Effect(s: Remote, c: Command): Option<Remote> {
    match c
    case Cwd(path) =>
      var p := Resolve(s.cwd, path);
      if IsDir(s.tree, p) then Some(s.(cwd := p)) else None
    case Cdup => Some(s.(cwd := Parent(s.cwd)))
    case Mkd(part) =>
      if part.Sub? && s.cwd + [part.name] !in s.tree
      then Some(s.(tree := s.tree[s.cwd + [part.name] := Dir])) else None
    case Rmd(path) =>
      var p := Resolve(s.cwd, path);
      if IsDir(s.tree, p) && p != [] && p != s.cwd && NoChildren(s.tree, p)
      then Some(s.(tree := s.tree - {p})) else None
    case Dele(name) =>
      var p := s.cwd + [name];
      if p in s.tree && !s.tree[p].Dir? then Some(s.(tree := s.tree - {p})) else None
    case Stor(name, content) =>
      var p := s.cwd + [name];
      if p !in s.tree || s.tree[p].File? then Some(s.(tree := s.tree[p := File(content)])) else None
  }

  ghost predicate RemoteOk(s: Remote) {
    IsTree(s.tree) && IsDir(s.tree, s.cwd)
  }

  lemma EffectKeepsTree(s: Remote, c: Command)
    requires RemoteOk(s) && Effect(s, c).Some?
    ensures RemoteOk(Effect(s, c).value)
  {
    var s' := Effect(s, c).value;
    match c
    case Mkd(part) =>
      var p := s.cwd + [part.name];
      assert Parent(p) == s.cwd;
    case Stor(name, _) =>
      var p := s.cwd + [name];
      assert Parent(p) == s.cwd;
      assert forall q | q in s.tree && s.tree[q] == Dir :: q != p;
    case Dele(name) =>
      var p := s.cwd + [name];
      assert forall q | IsDir(s.tree, q) :: q != p && IsDir(s'.tree, q);
    case Rmd(path) =>
      var p := Resolve(s.cwd, path);
      assert forall q | IsDir(s.tree, q) && q != p :: IsDir(s'.tree, q);
    case _ =>
  }

  // ---------------------------------------------------------------- faults

  /** What goes wrong with a command on top of what the server has to refuse: nothing; a refusal; an
      upload or download cut after some bytes, by an error reply or because the connection is lost; a
      lost connection, before or after the command took effect. */
  datatype Fault = Fine | Refuse | Cut(bytes: nat, lost: bool) | Lose(executed: bool)

  /** Result of a client call: success, rejection for instance by an FTP error, or rejection because
      the client has been closed. */
  datatype Status = Done | Failed | Lost

  function Truncate(content: Bytes, n: nat): Bytes {
    if n < |content| then content[..n] else content
  }

  /** The server state and the status of one command under a fault. */
  function Execute(s: Remote, c: Command, f: Fault): (Remote, Status) {
    var e := Effect(s, c);
    match f
    case Fine => if e.Some? then (e.value, Done) else (s, Failed)
    case Refuse => (s, Failed)
    case Cut(n, lost) =>
      var status := if lost then Lost else Failed;
      if c.Stor? && e.Some?
      then (s.(tree := s.tree[s.cwd + [c.name] := File(Truncate(c.content, n))]), status)
      else (s, status)
    case Lose(executed) => (if executed && e.Some? then e.value else s, Lost)
  }

  lemma ExecuteKeepsTree(s: Remote, c: Command, f: Fault)
    requires RemoteOk(s)
    ensures RemoteOk(Execute(s, c, f).0)
  {
    if Effect(s, c).Some? {
      EffectKeepsTree(s, c);
      if f.Cut? && c.Stor? {
        var c' := Stor(c.name, Truncate(c.content, f.bytes));
        EffectKeepsTree(s, c');
      }
    }
  }

  datatype Listed = Listed(name: Name, entry: Entry)

  /** A listing of a directory names each child once, in any order, with its type. */
  ghost predicate IsListing(t: Tree, p: Path, files: seq<Listed>) {
    && (forall i | 0 <= i < |files| :: At(t, p + [files[i].name]) == Some(files[i].entry))
    && (forall i, j | 0 <= i < j < |files| :: files[i].name != files[j].name)
    && (forall q | q in t && q != [] && Parent(q) == p :: exists i :: 0 <= i < |files| && q == p + [files[i].name])
  }

  predicate IsListed(p: Path, files: seq<Listed>, q: Path) {
    exists i :: 0 <= i < |files| && q == p + [files[i].name]
  }

  lemma IsListedSnoc(p: Path, files: seq<Listed>, file: Listed, q: Path)
    ensures IsListed(p, files, q) || q == p + [file.name] ==> IsListed(p, files + [file], q)
  {
    var more := files + [file];
    if IsListed(p, files, q) {
      var i :| 0 <= i < |files| && q == p + [files[i].name];
      assert more[i] == files[i];
    } else if q == p + [file.name] {
      assert q == p + [more[|files|].name];
    }
  }

  /** Every child of a directory is listed, once, or still to do. */
  ghost predicate ListedSoFar(t: Tree, p: Path, files: seq<Listed>, todo: set<Path>) {
    && (forall q | q in todo :: q in t && q != [] && Parent(q) == p)
    && (forall i | 0 <= i < |files| ::
          At(t, p + [files[i].name]) == Some(files[i].entry) && p + [files[i].name] !in todo)
    && (forall i, j | 0 <= i < j < |files| :: files[i].name != files[j].name)
    && (forall q {:trigger Parent(q)} | q in t && q != [] && Parent(q) == p :: q in todo || IsListed(p, files, q))
  }

  lemma NothingListed(t: Tree, p: Path, todo: set<Path>)
    requires forall q :: q in todo <==> q in t && q != [] && Parent(q) == p
    ensures ListedSoFar(t, p, [], todo)
  {
  }

  lemma ChildIs(p: Path, q: Path)
    requires q != [] && Parent(q) == p
    ensures q == p + [q[|q| - 1]]
  {
  }

  lemma ListNext(t: Tree, p: Path, files: seq<Listed>, todo: set<Path>, file: Listed)
    requires ListedSoFar(t, p, files, todo) && p + [file.name] in todo && At(t, p + [file.name]) == Some(file.entry)
    ensures ListedSoFar(t, p, files + [file], todo - {p + [file.name]})
  {
    var more := files + [file];
    forall i | 0 <= i < |files|
      ensures more[i] == files[i] && files[i].name != file.name && p + [files[i].name] != p + [file.name]
    {
      assert p + [files[i].name] !in todo;
    }
    forall q | q in t && q != [] && Parent(q) == p ensures q in todo - {p + [file.name]} || IsListed(p, more, q) {
      IsListedSnoc(p, files, file, q);
    }
  }

  lemma AllListed(t: Tree, p: Path, files: seq<Listed>)
    requires ListedSoFar(t, p, files, {})
    ensures IsListing(t, p, files)
  {
    forall q | q in t && q != [] && Parent(q) == p ensures exists i :: 0 <= i < |files| && q == p + [files[i].name] {
      assert IsListed(p, files, q);
    }
  }

  /** The connection of a client to its server. */
  class Session {
    var tree: Tree
    var cwd: Path
    var alive: bool
    /** Number of commands sent, and what goes wrong with each. */
    var clock: nat
    const fault: nat -> Fault

    ghost predicate Valid()
      reads this
    {
      RemoteOk(Remote(tree, cwd))
    }

    /** No command from number `since` on has met a fault. */
    ghost predicate NoFaults(since: nat)
      reads this
    {
      forall n | since <= n < clock :: fault(n) == Fine
    }

    constructor (tree: Tree, cwd: Path, fault: nat -> Fault)
      requires RemoteOk(Remote(tree, cwd))
      ensures Valid() && this.tree == tree && this.cwd == cwd && this.fault == fault && alive && clock == 0
    {
      this.tree, this.cwd, this.fault, alive, clock := tree, cwd, fault, true, 0;
    }

    method Send(c: Command) returns (s: Status)
      requires Valid()
      modifies this
      ensures Valid()
      ensures !old(alive) ==> unchanged(this) && s == Lost
      ensures old(alive) ==>
                && clock == old(clock) + 1
                && (Remote(tree, cwd), s) == Execute(old(Remote(tree, cwd)), c, fault(old(clock)))
                && (alive <==> s != Lost)
    {
      if !alive {
        return Lost;
      }
      ExecuteKeepsTree(Remote(tree, cwd), c, fault(clock));
      var r := Execute(Remote(tree, cwd), c, fault(clock));
      tree, cwd, s := r.0.tree, r.0.cwd, r.1;
      clock := clock + 1;
      alive := s != Lost;
    }

    /** Status of a command that changes nothing on the server. */
    method Query() returns (s: Status)
      requires Valid()
      modifies this`alive, this`clock
      ensures !old(alive) ==> clock == old(clock) && !alive && s == Lost
      ensures old(alive) ==> clock == old(clock) + 1 && (alive <==> s != Lost)
                             && (s == Done <==> fault(old(clock)) == Fine)
    {
      if !alive {
        return Lost;
      }
      var f := fault(clock);
      s := if f == Fine then Done else if f.Lose? || (f.Cut? && f.lost) then Lost else Failed;
      clock := clock + 1;
      alive := s != Lost;
    }

    /** `list()`: the entries of the working directory, without the preparation of its transfer. */
    method List() returns (s: Status, files: seq<Listed>)
      requires Valid()
      modifies this`alive, this`clock
      ensures !old(alive) ==> clock == old(clock) && !alive && s == Lost
      ensures old(alive) ==> clock == old(clock) + 1 && (alive <==> s != Lost)
                             && (s == Done <==> fault(old(clock)) == Fine)
      ensures s == Done ==> IsListing(tree, cwd, files)
    {
      s := Query();
      files := [];
      if s == Done {
        files := Entries();
      }
    }

    /** RETR of a file: its content, or a part of it before the transfer failed. */
    method Retrieve(name: Name) returns (s: Status, data: Bytes)
      requires Valid()
      modifies this`alive, this`clock
      ensures !old(alive) ==> clock == old(clock) && !alive && s == Lost
      ensures old(alive) ==> clock == old(clock) + 1 && (alive <==> s != Lost)
      ensures data == [] || (At(tree, cwd + [name]).Some? && tree[cwd + [name]].File?
                             && data <= tree[cwd + [name]].content)
      ensures s == Done ==> At(tree, cwd + [name]) == Some(File(data))
      ensures old(alive) && fault(old(clock)) == Fine ==>
                alive && (s == Done <==> At(tree, cwd + [name]).Some? && tree[cwd + [name]].File?)
    {
      data := [];
      var f := fault(clock);
      s := Query();
      var p := cwd + [name];
      if p in tree && tree[p].File? {
        match f {
          case Fine => data := if s == Done then tree[p].content else [];
          case Cut(n, _) => data := Truncate(tree[p].content, n);
          case Lose(executed) => data := if executed then tree[p].content else [];
          case Refuse =>
        }
      } else if s == Done {
        s := Failed;
      }
    }

    method Entries() returns (files: seq<Listed>)
      ensures IsListing(tree, cwd, files)
    {
      files := [];
      var t, p := tree, cwd;
      var todo := set q | q in t && q != [] && Parent(q) == p;
      NothingListed(t, p, todo);
      while todo != {}
        invariant ListedSoFar(t, p, files, todo)
        decreases todo
      {
        var q :| q in todo;
        var file := Listed(q[|q| - 1], t[q]);
        ChildIs(p, q);
        ListNext(t, p, files, todo, file);
        files := files + [file];
        todo := todo - {q};
      }
      AllListed(t, p, files);
    }
  }
}
