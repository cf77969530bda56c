/** Model of src/parseListMLSD.ts and of the objects of src/FileInfo.ts: facts, lines and listings. */
module Mlsd {
  import opened ReplyParser
  import opened Numbers
  import opened MlsxDate

  datatype Kind = UnknownKind | File | Directory | SymbolicLink

  /** A result of parseInt, NaN if None. */
  type Number = Option<int>

  datatype Permissions = Permissions(user: Number, group: Number, world: Number)

  /** The value of a FileInfo, without `rawModifiedAt`, which repeats `modifiedAt`. */
  datatype Info = Info(
    name: string, kind: Kind, size: Number, modifiedAt: Option<int>, permissions: Option<Permissions>,
    link: Option<string>, group: Option<string>, user: Option<string>, uniqueID: Option<string>)

  function New(name: string): Info {
    Info(name, UnknownKind, Some(0), None, None, None, None, None, None)
  }

  class FileInfo {
    const name: string
    var kind: Kind
    var size: Number
    var modifiedAt: Option<int>
    var permissions: Option<Permissions>
    var link: Option<string>
    var group: Option<string>
    var user: Option<string>
    var uniqueID: Option<string>

    function View(): Info
      reads this
    {
      Info(name, kind, size, modifiedAt, permissions, link, group, user, uniqueID)
    }

    constructor (name: string)
      ensures View() == New(name)
    {
      this.name := name;
      kind, size, modifiedAt, permissions := UnknownKind, Some(0), None, None;
      link, group, user, uniqueID := None, None, None, None;
    }
  }

  // ---------------------------------------------------------------- splitting strings

  /** `s.indexOf(c)` */
  function IndexOf(s: string, c: char): (i: int)
    ensures -1 <= i < |s|
    ensures i == -1 ==> c !in s
    ensures i >= 0 ==> s[i] == c && c !in s[..i]
  {
    if s == "" then -1
    else if s[0] == c then 0
    else
      var i := IndexOf(s[1..], c);
      assert i >= 0 ==> s[..i + 1] == [s[0]] + s[1..][..i];
      if i == -1 then -1 else i + 1
  }

  /** Without delimiter the first part is empty and the second is all. */
  function SplitStringOnce(s: string, delimiter: char): (string, string) {
    var i := IndexOf(s, delimiter);
    if i == -1 then ("", s) else (s[..i], s[i + 1..])
  }

  /** `s.split(delimiter)` */
  function SplitAll(s: string, delimiter: char): seq<string>
    decreases |s|
  {
    var i := IndexOf(s, delimiter);
    if i == -1 then [s] else [s[..i]] + SplitAll(s[i + 1..], delimiter)
  }

  /** Lower case of the letters A to Z; no other letter becomes one that a known fact name contains. */
  function ToLowerCase(s: string): string {
    if s == "" then ""
    else [if 'A' <= s[0] <= 'Z' then (s[0] as int + 32) as char else s[0]] + ToLowerCase(s[1..])
  }

  predicate StartsWith(s: string, prefix: string) {
    prefix <= s
  }

  // ---------------------------------------------------------------- facts

  /** What a fact in a line amounts to: nothing if it has no value or is unknown; the entry is dropped;
      an exception; or a property is set. */
  datatype Fact =
    | Nothing
    | Drops
    | Throws
    | Size(size: Number)
    | UniqueID(id: string)
    | Modified(time: int)
    | Type(kind: Kind, target: Option<string>)
    | UnixMode(permissions: Permissions)
    | OwnerName(owner: string)
    | OwnerID(owner: string)
    | GroupName(group: string)
    | GroupID(group: string)

  function ReadType(value: string): Fact {
    if StartsWith(value, "OS.unix=slink") then
      var i := IndexOf(value, ':');
      Type(SymbolicLink, Some(value[i + 1..]))
    else if value == "file" then Type(File, None)
    else if value == "dir" then Type(Directory, None)
    else if value == "OS.unix=symlink" then Type(SymbolicLink, None)
    else if value == "cdir" || value == "pdir" then Drops
    else Type(UnknownKind, None)
  }

  /** `parseInt(digits[i], 10)`, also where there is no such digit. */
  function PermissionAt(digits: string, i: nat): Number {
    if i < |digits| then ParseInt([digits[i]]) else None
  }

  function ReadMode(value: string): Permissions {
    var digits := if |value| > 3 then value[|value| - 3..] else value;
    Permissions(PermissionAt(digits, 0), PermissionAt(digits, 1), PermissionAt(digits, 2))
  }

  function FactOf(text: string): Fact {
    var (factName, value) := SplitStringOnce(text, '=');
    if value == "" then Nothing else FactNamed(ToLowerCase(factName), value)
  }

  function FactNamed(name: string, value: string): Fact {
    if name == "size" || name == "sizd" then Size(ParseInt(value))
    else if name == "unique" then UniqueID(value)
    else if name == "modify" then
      var t := ParseMLSxDate(value);
      if t.Some? then Modified(t.value) else Throws
    else if name == "type" then ReadType(value)
    else if name == "__proto__" then Throws
    else UnixFact(name, value)
  }

  function UnixFact(name: string, value: string): Fact {
    if name == "unix.mode" then UnixMode(ReadMode(value))
    else if name == "unix.ownername" then OwnerName(value)
    else if name == "unix.owner" || name == "unix.uid" then OwnerID(value)
    else if name == "unix.groupname" then GroupName(value)
    else if name == "unix.group" || name == "unix.gid" then GroupID(value)
    else Nothing
  }

  function FactsOf(texts: seq<string>): (facts: seq<Fact>)
    ensures |facts| == |texts| && forall i | 0 <= i < |texts| :: facts[i] == FactOf(texts[i])
  {
    if texts == [] then [] else [FactOf(texts[0])] + FactsOf(texts[1..])
  }

  function Apply(i: Info, f: Fact): Info {
    match f
    case Nothing | Drops | Throws => i
    case Size(n) => i.(size := n)
    case UniqueID(id) => i.(uniqueID := Some(id))
    case Modified(t) => i.(modifiedAt := Some(t))
    case Type(kind, target) => i.(kind := kind, link := if target.Some? then target else i.link)
    case UnixMode(p) => i.(permissions := Some(p))
    case OwnerName(s) => i.(user := Some(s))
    case OwnerID(s) => if i.user == None then i.(user := Some(s)) else i
    case GroupName(s) => i.(group := Some(s))
    case GroupID(s) => if i.group == None then i.(group := Some(s)) else i
  }

  /** What becomes of a line: an entry, `undefined` or an exception. */
  datatype Reading = Entry(info: Info) | Ignored | Threw

  function ReadAll(i: Info, facts: seq<Fact>): Reading
    decreases |facts|
  {
    if facts == [] then Entry(i)
    else if facts[0] == Drops then Ignored
    else if facts[0] == Throws then Threw
    else ReadAll(Apply(i, facts[0]), facts[1..])
  }

  function ReadLine(line: string): Reading {
    var (packedFacts, name) := SplitStringOnce(line, ' ');
    if name == "" || name == "." || name == ".." then Ignored
    else ReadAll(New(name), FactsOf(SplitAll(packedFacts, ';')))
  }

  datatype FactResult = Continue | IgnoreFile | Exception

  /** One round of the loop in `parseLine`: the handler of a fact, if there is one, is called. */
  method HandleFact(fact: string, info: FileInfo) returns (r: FactResult)
    modifies info
    ensures match FactOf(fact)
            case Drops => r == IgnoreFile
            case Throws => r == Exception
            case f => r == Continue && info.View() == Apply(old(info.View()), f)
  {
    var (factName, value) := SplitStringOnce(fact, '=');
    if value == "" {
      return Continue;
    }
    r := CallHandler(ToLowerCase(factName), value, info);
  }

  method CallHandler(name: string, value: string, info: FileInfo) returns (r: FactResult)
    modifies info
    ensures match FactNamed(name, value)
            case Drops => r == IgnoreFile
            case Throws => r == Exception
            case f => r == Continue && info.View() == Apply(old(info.View()), f)
  {
    r := Continue;
    if name == "size" || name == "sizd" {
      info.size := ParseInt(value);
    } else if name == "unique" {
      info.uniqueID := Some(value);
    } else if name == "modify" {
      info.modifiedAt := ParseMLSxDate(value);
      if info.modifiedAt == None {
        r := Exception; // toISOString of an invalid date
      }
    } else if name == "type" {
      r := HandleType(value, info);
    } else if name == "__proto__" {
      r := Exception; // found by the lookup, but no function
    } else {
      CallUnixHandler(name, value, info);
    }
  }

  method CallUnixHandler(name: string, value: string, info: FileInfo)
    modifies info`permissions, info`user, info`group
    ensures info.View() == Apply(old(info.View()), UnixFact(name, value))
  {
    if name == "unix.mode" {
      info.permissions := Some(ReadMode(value));
    } else if name == "unix.ownername" {
      info.user := Some(value);
    } else if name == "unix.owner" || name == "unix.uid" {
      HandleOwner(value, info);
    } else if name == "unix.groupname" {
      info.group := Some(value);
    } else if name == "unix.group" || name == "unix.gid" {
      HandleGroup(value, info);
    }
  }

  method HandleOwner(value: string, info: FileInfo)
    modifies info`user
    ensures info.View() == Apply(old(info.View()), OwnerID(value))
  {
    if info.user == None { info.user := Some(value); }
  }

  method HandleGroup(value: string, info: FileInfo)
    modifies info`group
    ensures info.View() == Apply(old(info.View()), GroupID(value))
  {
    if info.group == None { info.group := Some(value); }
  }

  method HandleType(value: string, info: FileInfo) returns (r: FactResult)
    modifies info`kind, info`link
    ensures ReadType(value) == Drops ==> r == IgnoreFile
    ensures ReadType(value) != Drops ==> r == Continue && info.View() == Apply(old(info.View()), ReadType(value))
  {
    r := Continue;
    if StartsWith(value, "OS.unix=slink") {
      info.kind := SymbolicLink;
      info.link := Some(value[IndexOf(value, ':') + 1..]);
      return;
    }
    match value {
      case "file" => info.kind := File;
      case "dir" => info.kind := Directory;
      case "OS.unix=symlink" => info.kind := SymbolicLink;
      case "cdir" => r := IgnoreFile;
      case "pdir" => r := IgnoreFile;
      case _ => info.kind := UnknownKind;
    }
  }

  lemma NextFact(info: Info, texts: seq<string>, i: nat)
    requires i < |texts|
    ensures ReadAll(info, FactsOf(texts[i..])) ==
            match FactOf(texts[i])
            case Drops => Ignored
            case Throws => Threw
            case f => ReadAll(Apply(info, f), FactsOf(texts[i + 1..]))
  {
    assert texts[i..][1..] == texts[i + 1..];
    assert FactsOf(texts[i..])[1..] == FactsOf(texts[i + 1..]);
  }

  datatype LineResult = Found(file: FileInfo) | Undefined | Thrown

  method ParseLine(line: string) returns (r: LineResult)
    ensures match ReadLine(line)
            case Entry(info) => r.Found? && fresh(r.file) && r.file.View() == info
            case Ignored => r == Undefined
            case Threw => r == Thrown
  {
    var (packedFacts, name) := SplitStringOnce(line, ' ');
    if name == "" || name == "." || name == ".." {
      return Undefined;
    }
    var info := new FileInfo(name);
    var facts := SplitAll(packedFacts, ';');
    var i := 0;
    assert facts[0..] == facts;
    while i < |facts|
      invariant 0 <= i <= |facts| && fresh(info)
      invariant ReadLine(line) == ReadAll(info.View(), FactsOf(facts[i..]))
    {
      NextFact(info.View(), facts, i);
      var result := HandleFact(facts[i], info);
      if result == IgnoreFile {
        return Undefined;
      }
      if result == Exception {
        return Thrown;
      }
      i := i + 1;
    }
    r := Found(info);
  }
}
