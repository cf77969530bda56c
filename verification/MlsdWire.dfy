/** MLSD entries as section 7 of RFC 3659 puts them on the wire, and that `parseLine` reads them back. */
module MlsdWire {
  import opened ReplyParser
  import opened Numbers
  import opened MlsxDate
  import opened Mlsd
  import opened MlsdOrder

  // ---------------------------------------------------------------- entries and their facts

  /** Values of the fact "type"; symbolic links have two notations. */
  datatype KindText = PlainFile | Dir | Symlink | SlinkTo(target: string) | OtherKind(text: string)

  /** Three digits, after whatever else a server prints in front of them. */
  datatype Mode = Mode(prefix: string, user: nat, group: nat, world: nat)

  /** An entry and the properties a server tells about it. */
  datatype Listed = Listed(
    name: string, kind: Option<KindText>, size: Option<nat>, unique: Option<string>, modified: Option<Stamp>,
    mode: Option<Mode>, ownerName: Option<string>, ownerID: Option<string>,
    groupName: Option<string>, groupID: Option<string>)

  datatype WireFact =
    | TypeFact(kind: KindText)
    | SizeFact(size: nat)
    | SizdFact(size: nat)
    | UniqueFact(text: string)
    | ModifyFact(time: Stamp)
    | ModeFact(mode: Mode)
    | OwnerNameFact(text: string)
    | OwnerFact(text: string)
    | UidFact(text: string)
    | GroupNameFact(text: string)
    | GroupFact(text: string)
    | GidFact(text: string)
    | UnknownFact(factName: string, text: string)

  predicate Visible(s: string) {
    ';' !in s && ' ' !in s
  }

  predicate IsValue(s: string) {
    s != "" && Visible(s)
  }

  predicate KindOk(k: KindText) {
    match k
    case SlinkTo(target) => Visible(target)
    case OtherKind(text) =>
      && IsValue(text) && text != "file" && text != "dir" && text != "OS.unix=symlink"
      && text != "cdir" && text != "pdir" && !("OS.unix=slink" <= text)
    case _ => true
  }

  predicate TimeOk(st: Stamp) {
    ValidStamp(st) && 100 <= st.year <= 9999
  }

  predicate ModeOk(m: Mode) {
    Visible(m.prefix) && m.user < 10 && m.group < 10 && m.world < 10
  }

  predicate WellFormed(e: Listed) {
    && e.name != "" && e.name != "." && e.name != ".."
    && (e.kind.Some? ==> KindOk(e.kind.value))
    && (e.unique.Some? ==> IsValue(e.unique.value))
    && (e.modified.Some? ==> TimeOk(e.modified.value))
    && (e.mode.Some? ==> ModeOk(e.mode.value))
    && (e.ownerName.Some? ==> IsValue(e.ownerName.value)) && (e.ownerID.Some? ==> IsValue(e.ownerID.value))
    && (e.groupName.Some? ==> IsValue(e.groupName.value)) && (e.groupID.Some? ==> IsValue(e.groupID.value))
  }

  /** The facts that may stand in a line for the entry, unknown ones included. */
  predicate Has(e: Listed, w: WireFact) {
    match w
    case TypeFact(k) => e.kind == Some(k)
    case SizeFact(n) => e.size == Some(n)
    case SizdFact(n) => e.size == Some(n)
    case UniqueFact(s) => e.unique == Some(s)
    case ModifyFact(st) => e.modified == Some(st)
    case ModeFact(m) => e.mode == Some(m)
    case OwnerNameFact(s) => e.ownerName == Some(s)
    case OwnerFact(s) => e.ownerID == Some(s)
    case UidFact(s) => e.ownerID == Some(s)
    case GroupNameFact(s) => e.groupName == Some(s)
    case GroupFact(s) => e.groupID == Some(s)
    case GidFact(s) => e.groupID == Some(s)
    case UnknownFact(n, s) => '=' !in n && Visible(n) && Visible(s) && !IsKnown(n)
  }

  const KNOWN := ["size", "sizd", "unique", "modify", "type", "__proto__", "unix.mode", "unix.ownername",
                  "unix.owner", "unix.uid", "unix.groupname", "unix.group", "unix.gid"]

  predicate IsKnown(n: string) {
    exists i :: 0 <= i < |KNOWN| && IgnoringCase(n, KNOWN[i])
  }

  /** `s` is `t` with any of its letters in upper case. */
  predicate IgnoringCase(s: string, t: string) {
    |s| == |t| && forall i | 0 <= i < |s| :: s[i] == t[i] || ('a' <= t[i] <= 'z' && s[i] as int + 32 == t[i] as int)
  }

  // ---------------------------------------------------------------- printing

  function NameOf(w: WireFact): string {
    match w
    case TypeFact(_) => "type"
    case SizeFact(_) => "size"
    case SizdFact(_) => "sizd"
    case UniqueFact(_) => "unique"
    case ModifyFact(_) => "modify"
    case ModeFact(_) => "unix.mode"
    case OwnerNameFact(_) => "unix.ownername"
    case OwnerFact(_) => "unix.owner"
    case UidFact(_) => "unix.uid"
    case GroupNameFact(_) => "unix.groupname"
    case GroupFact(_) => "unix.group"
    case GidFact(_) => "unix.gid"
    case UnknownFact(n, _) => n
  }

  function KindPrinted(k: KindText): string {
    match k
    case PlainFile => "file"
    case Dir => "dir"
    case Symlink => "OS.unix=symlink"
    case SlinkTo(target) => "OS.unix=slink:" + target
    case OtherKind(text) => text
  }

  function ModePrinted(m: Mode): string {
    m.prefix + Padded(m.user, 1) + Padded(m.group, 1) + Padded(m.world, 1)
  }

  /** YYYYMMDDHHMMSS.sss */
  function TimePrinted(st: Stamp): string {
    if TimeOk(st) then
      Padded(st.year, 4) + Padded(st.month, 2) + Padded(st.day, 2) + Padded(st.hour, 2) + Padded(st.minute, 2)
      + Padded(st.second, 2) + "." + Padded(st.milli, 3)
    else ""
  }

  function ValueOf(w: WireFact): string {
    match w
    case TypeFact(k) => KindPrinted(k)
    case SizeFact(n) => Shown(n)
    case SizdFact(n) => Shown(n)
    case ModifyFact(st) => TimePrinted(st)
    case ModeFact(m) => ModePrinted(m)
    case UniqueFact(s) => s
    case OwnerNameFact(s) => s
    case OwnerFact(s) => s
    case UidFact(s) => s
    case GroupNameFact(s) => s
    case GroupFact(s) => s
    case GidFact(s) => s
    case UnknownFact(_, s) => s
  }

  /** A fact in a line, its name in any letter case. */
  predicate IsText(t: string, w: WireFact) {
    var n := |NameOf(w)|;
    n <= |t| && IgnoringCase(t[..n], NameOf(w)) && t[n..] == "=" + ValueOf(w)
  }

  ghost predicate Shows(e: Listed, t: string) {
    exists w :: Has(e, w) && IsText(t, w)
  }

  predicate ShownBy(texts: seq<string>, w: WireFact) {
    exists i :: 0 <= i < |texts| && IsText(texts[i], w)
  }

  /** The fact for one of the properties, if the entry has it. */
  function WireAt(e: Listed, k: Slot): Option<WireFact> {
    match k
    case TypeOf => if e.kind.Some? then Some(TypeFact(e.kind.value)) else None
    case SizeOf => if e.size.Some? then Some(SizeFact(e.size.value)) else None
    case IDOf => if e.unique.Some? then Some(UniqueFact(e.unique.value)) else None
    case TimeOf => if e.modified.Some? then Some(ModifyFact(e.modified.value)) else None
    case ModeOf => if e.mode.Some? then Some(ModeFact(e.mode.value)) else None
    case OwnerNameOf => if e.ownerName.Some? then Some(OwnerNameFact(e.ownerName.value)) else None
    case OwnerIDOf => if e.ownerID.Some? then Some(UidFact(e.ownerID.value)) else None
    case GroupNameOf => if e.groupName.Some? then Some(GroupNameFact(e.groupName.value)) else None
    case GroupIDOf => if e.groupID.Some? then Some(GidFact(e.groupID.value)) else None
  }

  /** Another fact with the same meaning. */
  function Alias(w: WireFact): WireFact {
    match w
    case SizeFact(n) => SizdFact(n)
    case UidFact(s) => OwnerFact(s)
    case GidFact(s) => GroupFact(s)
    case _ => w
  }

  /** Facts in any order, each any number of times, that show all properties of the entry and no others. */
  ghost predicate Prints(texts: seq<string>, e: Listed) {
    && (forall i | 0 <= i < |texts| :: Shows(e, texts[i]))
    && (forall k | WireAt(e, k).Some? ::
          ShownBy(texts, WireAt(e, k).value) || ShownBy(texts, Alias(WireAt(e, k).value)))
  }

  // ---------------------------------------------------------------- what is to be read

  function KindOf(k: KindText): Kind {
    match k
    case PlainFile => File
    case Dir => Directory
    case Symlink => SymbolicLink
    case SlinkTo(_) => SymbolicLink
    case OtherKind(_) => UnknownKind
  }

  /** The entry as an object of the client; owner and group by name if there is one, or else by ID. */
  function InfoOf(e: Listed): Info {
    Info(
      e.name,
      if e.kind.Some? then KindOf(e.kind.value) else UnknownKind,
      Some(if e.size.Some? then e.size.value else 0),
      if e.modified.Some? then Some(TimeMeant(e.modified.value)) else None,
      if e.mode.Some?
      then Some(Permissions(Some(e.mode.value.user), Some(e.mode.value.group), Some(e.mode.value.world))) else None,
      if e.kind.Some? && e.kind.value.SlinkTo? then Some(e.kind.value.target) else None,
      if e.groupName.Some? then e.groupName else e.groupID,
      if e.ownerName.Some? then e.ownerName else e.ownerID,
      e.unique)
  }

  function TimeMeant(st: Stamp): int {
    if TimeOk(st) then Instant(st) else 0
  }

  function Meaning(w: WireFact): Fact {
    match w
    case TypeFact(k) => Type(KindOf(k), if k.SlinkTo? then Some(k.target) else None)
    case SizeFact(n) => Size(Some(n))
    case SizdFact(n) => Size(Some(n))
    case UniqueFact(s) => UniqueID(s)
    case ModifyFact(st) => Modified(TimeMeant(st))
    case ModeFact(m) => UnixMode(Permissions(Some(m.user), Some(m.group), Some(m.world)))
    case OwnerNameFact(s) => OwnerName(s)
    case OwnerFact(s) => OwnerID(s)
    case UidFact(s) => OwnerID(s)
    case GroupNameFact(s) => GroupName(s)
    case GroupFact(s) => GroupID(s)
    case GidFact(s) => GroupID(s)
    case UnknownFact(_, _) => Nothing
  }

  // ---------------------------------------------------------------- names

  predicate PlainCharacter(c: char) {
    'a' <= c <= 'z' || c == '.' || c == '_'
  }

  /** Small letters, points and underscores. */
  predicate Plain(name: string) {
    forall i | 0 <= i < |name| :: PlainCharacter(name[i])
  }

  lemma {:induction false} LowerCaseAt(s: string)
    ensures |ToLowerCase(s)| == |s|
    ensures forall i | 0 <= i < |s| ::
              ToLowerCase(s)[i] == if 'A' <= s[i] <= 'Z' then (s[i] as int + 32) as char else s[i]
    decreases |s|
  {
    if s != "" {
      LowerCaseAt(s[1..]);
      forall i | 0 <= i < |s|
        ensures ToLowerCase(s)[i] == if 'A' <= s[i] <= 'Z' then (s[i] as int + 32) as char else s[i]
      {
        if i > 0 {
          assert ToLowerCase(s)[i] == ToLowerCase(s[1..])[i - 1] && s[1..][i - 1] == s[i];
        }
      }
    }
  }

  lemma CaseIsIgnored(n: string, name: string)
    requires Plain(name) && IgnoringCase(n, name)
    ensures ToLowerCase(n) == name && '=' !in n && Visible(n)
  {
    LowerCaseAt(n);
    forall i | 0 <= i < |n| ensures ToLowerCase(n)[i] == name[i] && n[i] != '=' && n[i] != ';' && n[i] != ' ' {
      assert PlainCharacter(name[i]);
    }
  }

  lemma LowerCaseIsKnown(n: string, i: nat)
    requires i < |KNOWN| && ToLowerCase(n) == KNOWN[i]
    ensures IsKnown(n)
  {
    LowerCaseAt(n);
    forall k | 0 <= k < |n|
      ensures n[k] == KNOWN[i][k] || ('a' <= KNOWN[i][k] <= 'z' && n[k] as int + 32 == KNOWN[i][k] as int)
    {
      assert ToLowerCase(n)[k] == KNOWN[i][k];
    }
    assert IgnoringCase(n, KNOWN[i]);
  }

  /** A fact whose name is none of those is not looked at. */
  lemma UnknownIsNothing(n: string, value: string)
    requires !IsKnown(n)
    ensures FactNamed(ToLowerCase(n), value) == Nothing
  {
    forall i | 0 <= i < |KNOWN| ensures ToLowerCase(n) != KNOWN[i] {
      if ToLowerCase(n) == KNOWN[i] { LowerCaseIsKnown(n, i); }
    }
    NoKnownName(ToLowerCase(n), value);
  }

  lemma NoKnownName(name: string, value: string)
    requires forall i | 0 <= i < |KNOWN| :: name != KNOWN[i]
    ensures FactNamed(name, value) == Nothing
  {
    assert name != KNOWN[0] && name != KNOWN[1] && name != KNOWN[2] && name != KNOWN[3] && name != KNOWN[4];
    assert name != KNOWN[5] && name != KNOWN[6] && name != KNOWN[7] && name != KNOWN[8] && name != KNOWN[9];
    assert name != KNOWN[10] && name != KNOWN[11] && name != KNOWN[12];
  }

  lemma NamesArePlain(w: WireFact)
    requires !w.UnknownFact?
    ensures Plain(NameOf(w))
  {
  }

  // ---------------------------------------------------------------- values

  lemma SizeIsRead(n: nat)
    ensures ParseInt(Shown(n)) == Some(n) && IsValue(Shown(n))
  {
    ShownIsDecimal(n);
    DigitsAreInteger(Shown(n));
    DigitsAreVisible(Shown(n));
  }

  lemma DigitsAreVisible(s: string)
    requires forall i | 0 <= i < |s| :: '0' <= s[i] <= '9'
    ensures Visible(s)
  {
  }

  lemma DigitIsRead(n: nat)
    requires n < 10
    ensures Padded(n, 1) == [(n + '0' as int) as char] && ParseInt(Padded(n, 1)) == Some(n) && IsValue(Padded(n, 1))
  {
    var c := (n + '0' as int) as char;
    DigitPrinted(n, c);
    assert AllDigits([c], 10) && Value([c]) == n by {
      ValueSnoc("", n);
      assert "" + [c] == [c];
    }
    DigitsAreInteger([c]);
  }

  lemma DigitPrinted(n: nat, c: char)
    requires n < 10 && c == (n + '0' as int) as char
    ensures Padded(n, 1) == [c]
  {
    assert Padded(n / 10, 0) == "" && n % 10 == n;
  }

  lemma ModeIsRead(m: Mode)
    requires ModeOk(m)
    ensures ReadMode(ModePrinted(m)) == Permissions(Some(m.user), Some(m.group), Some(m.world))
    ensures IsValue(ModePrinted(m))
  {
    DigitIsRead(m.user);
    DigitIsRead(m.group);
    DigitIsRead(m.world);
    DigitsAfter(m.prefix, Padded(m.user, 1), Padded(m.group, 1), Padded(m.world, 1), ModePrinted(m));
  }

  lemma DigitsAfter(prefix: string, u: string, g: string, w: string, value: string)
    requires value == prefix + u + g + w && |u| == 1 && |g| == 1 && |w| == 1
    requires Visible(prefix) && Visible(u) && Visible(g) && Visible(w)
    ensures ReadMode(value) == Permissions(ParseInt(u), ParseInt(g), ParseInt(w)) && IsValue(value)
  {
    var digits := if |value| > 3 then value[|value| - 3..] else value;
    assert digits == u + g + w;
    assert [digits[0]] == u && [digits[1]] == g && [digits[2]] == w;
  }

  lemma KindIsRead(k: KindText)
    requires KindOk(k)
    ensures ReadType(KindPrinted(k)) == Type(KindOf(k), if k.SlinkTo? then Some(k.target) else None)
    ensures IsValue(KindPrinted(k))
  {
    var value := KindPrinted(k);
    match k
    case PlainFile => assert value[0] == 'f';
    case Dir => assert value[0] == 'd';
    case Symlink => assert value[9] == 'y';
    case SlinkTo(target) => SlinkIsRead(value, target);
    case OtherKind(_) =>
  }

  lemma SlinkIsRead(value: string, target: string)
    requires value == "OS.unix=slink:" + target && Visible(target)
    ensures ReadType(value) == Type(SymbolicLink, Some(target)) && IsValue(value)
  {
    var head := "OS.unix=slink";
    assert value == head + [':'] + target;
    assert value[..13] == head;
    IndexOfAfter(head, ':', target);
    assert value[14..] == target;
  }

  lemma TimeIsRead(st: Stamp)
    requires TimeOk(st)
    ensures ParseMLSxDate(TimePrinted(st)) == Some(Instant(st)) && IsValue(TimePrinted(st))
  {
    TimeHasFields(st);
    ReadExactly(TimePrinted(st));
  }

  lemma PowersAre()
    ensures Power(2) == 100 && Power(3) == 1000 && Power(4) == 10000
  {
    assert Power(1) == 10 * Power(0);
    assert Power(2) == 10 * Power(1);
    assert Power(3) == 10 * Power(2);
    assert Power(4) == 10 * Power(3);
  }

  lemma TimeHasFields(st: Stamp)
    requires TimeOk(st)
    ensures var s := TimePrinted(st);
            IsTimeVal(s) && StampOf(s) == st && |Fraction(s)| == 3 && IsValue(s)
  {
    PowersAre();
    PaddedIsDecimal(st.year, 4);
    PaddedIsDecimal(st.month, 2);
    PaddedIsDecimal(st.day, 2);
    PaddedIsDecimal(st.hour, 2);
    PaddedIsDecimal(st.minute, 2);
    PaddedIsDecimal(st.second, 2);
    PaddedIsDecimal(st.milli, 3);
    FieldsJoined(TimePrinted(st), Padded(st.year, 4), Padded(st.month, 2), Padded(st.day, 2), Padded(st.hour, 2),
                 Padded(st.minute, 2), Padded(st.second, 2), Padded(st.milli, 3));
  }

  predicate IsDigits(s: string, width: nat) {
    |s| == width && forall i | 0 <= i < width :: '0' <= s[i] <= '9'
  }

  lemma FieldsJoined(s: string, year: string, month: string, day: string, hour: string, minute: string,
                     second: string, milli: string)
    requires IsDigits(year, 4) && IsDigits(month, 2) && IsDigits(day, 2) && IsDigits(hour, 2)
    requires IsDigits(minute, 2) && IsDigits(second, 2) && IsDigits(milli, 3)
    requires s == year + month + day + hour + minute + second + "." + milli
    ensures IsTimeVal(s) && IsValue(s) && Fraction(s) == milli && Fraction(s)[..3] == milli
    ensures Field(s, 0, 4) == Value(year) && Field(s, 4, 6) == Value(month) && Field(s, 6, 8) == Value(day)
    ensures Field(s, 8, 10) == Value(hour) && Field(s, 10, 12) == Value(minute) && Field(s, 12, 14) == Value(second)
  {
    assert s[0..4] == year && s[4..6] == month && s[6..8] == day && s[8..10] == hour;
    assert s[10..12] == minute && s[12..14] == second && s[14] == '.' && s[15..] == milli;
    assert s[..14] == year + month + day + hour + minute + second;
  }

  // ---------------------------------------------------------------- facts are read

  predicate FactOk(w: WireFact) {
    match w
    case TypeFact(k) => KindOk(k)
    case SizeFact(_) => true
    case SizdFact(_) => true
    case ModifyFact(st) => TimeOk(st)
    case ModeFact(m) => ModeOk(m)
    case UniqueFact(s) => IsValue(s)
    case OwnerNameFact(s) => IsValue(s)
    case OwnerFact(s) => IsValue(s)
    case UidFact(s) => IsValue(s)
    case GroupNameFact(s) => IsValue(s)
    case GroupFact(s) => IsValue(s)
    case GidFact(s) => IsValue(s)
    case UnknownFact(n, s) => '=' !in n && Visible(n) && Visible(s) && !IsKnown(n)
  }

  lemma HadFactIsOk(e: Listed, w: WireFact)
    requires WellFormed(e) && Has(e, w)
    ensures FactOk(w)
  {
  }

  lemma ValueIsOk(w: WireFact)
    requires FactOk(w) && !w.UnknownFact?
    ensures IsValue(ValueOf(w))
  {
    match w
    case TypeFact(k) => KindIsRead(k);
    case SizeFact(n) => SizeIsRead(n);
    case SizdFact(n) => SizeIsRead(n);
    case ModifyFact(st) => TimeIsRead(st);
    case ModeFact(m) => ModeIsRead(m);
    case _ =>
  }

  lemma MainFactIsRead(w: WireFact)
    requires FactOk(w)
    requires w.TypeFact? || w.SizeFact? || w.SizdFact? || w.UniqueFact? || w.ModifyFact?
    ensures FactNamed(NameOf(w), ValueOf(w)) == Meaning(w)
  {
    match w
    case TypeFact(k) => KindIsRead(k);
    case SizeFact(n) => SizeIsRead(n);
    case SizdFact(n) => SizeIsRead(n);
    case UniqueFact(_) =>
    case ModifyFact(st) => TimeIsRead(st);
  }

  lemma UnixFactIsRead(w: WireFact, name: string)
    requires FactOk(w) && name == NameOf(w)
    requires w.ModeFact? || w.OwnerNameFact? || w.OwnerFact? || w.UidFact? || w.GroupNameFact? || w.GroupFact?
             || w.GidFact?
    ensures UnixFact(name, ValueOf(w)) == Meaning(w)
  {
    if w.ModeFact? {
      ModeIsRead(w.mode);
    }
  }

  lemma UnixNamesAreOther(name: string, value: string)
    requires |name| >= 5 && name[4] == '.'
    ensures FactNamed(name, value) == UnixFact(name, value)
  {
    assert name != "size" && name != "sizd" && name != "type";
    assert name != "unique" by { assert "unique"[4] == 'u'; }
    assert name != "modify" by { assert "modify"[4] == 'f'; }
    assert name != "__proto__" by { assert "__proto__"[4] == 'o'; }
  }

  lemma NamedFactIsRead(w: WireFact)
    requires FactOk(w) && !w.UnknownFact?
    ensures FactNamed(NameOf(w), ValueOf(w)) == Meaning(w)
  {
    if w.TypeFact? || w.SizeFact? || w.SizdFact? || w.UniqueFact? || w.ModifyFact? {
      MainFactIsRead(w);
    } else {
      UnixFactIsRead(w, NameOf(w));
      UnixNamesAreOther(NameOf(w), ValueOf(w));
    }
  }

  /** A fact on the wire is read as what it means. */
  lemma TextIsRead(t: string, w: WireFact)
    requires FactOk(w) && IsText(t, w)
    ensures FactOf(t) == Meaning(w) && IsFactText(t)
  {
    var name, value := NameOf(w), ValueOf(w);
    TextSplits(t, name, value);
    if w.UnknownFact? {
      UnknownTextIsRead(t, t[..|name|], w.factName, w.text);
    } else {
      NamesArePlain(w);
      ValueIsOk(w);
      NamedTextIsRead(t, t[..|name|], name, value);
      NamedFactIsRead(w);
    }
  }

  lemma TextSplits(t: string, name: string, value: string)
    requires |name| <= |t| && t[|name|..] == "=" + value
    ensures t == t[..|name|] + ("=" + value)
  {
  }

  lemma NamedTextIsRead(t: string, name: string, known: string, value: string)
    requires t == name + ("=" + value) && IgnoringCase(name, known) && Plain(known) && IsValue(value)
    ensures FactOf(t) == FactNamed(known, value) && IsFactText(t)
  {
    assert t == name + "=" + value;
    CaseIsIgnored(name, known);
    FactIsNamed(name, value);
    TextIsVisible(t, name, value);
  }

  lemma TextIsVisible(t: string, name: string, value: string)
    requires t == name + "=" + value && Visible(name) && Visible(value)
    ensures IsFactText(t)
  {
  }

  lemma UnknownTextIsRead(t: string, name: string, factName: string, value: string)
    requires t == name + ("=" + value) && IgnoringCase(name, factName)
    requires '=' !in factName && Visible(factName) && Visible(value) && !IsKnown(factName)
    ensures FactOf(t) == Nothing && IsFactText(t)
  {
    assert t == name + "=" + value;
    CaseKeepsUnknown(name, factName);
    TextIsVisible(t, name, value);
    SplitsOnce(name, '=', value);
    UnknownIsNothing(name, value);
  }

  lemma CaseKeepsUnknown(name: string, factName: string)
    requires IgnoringCase(name, factName) && '=' !in factName && Visible(factName) && !IsKnown(factName)
    ensures '=' !in name && Visible(name) && !IsKnown(name)
  {
    forall i | 0 <= i < |name| ensures name[i] != '=' && name[i] != ';' && name[i] != ' ' {
      assert factName[i] in factName;
    }
    if IsKnown(name) {
      var i :| 0 <= i < |KNOWN| && IgnoringCase(name, KNOWN[i]);
      KnownIsPlain(i);
      CaseComposes(factName, name, KNOWN[i]);
    }
  }

  lemma KnownIsPlain(i: nat)
    requires i < |KNOWN|
    ensures Plain(KNOWN[i])
  {
    assert Plain("size") && Plain("sizd") && Plain("unique") && Plain("modify") && Plain("type") && Plain("__proto__");
    assert Plain("unix.mode") && Plain("unix.ownername") && Plain("unix.owner") && Plain("unix.uid");
    assert Plain("unix.groupname") && Plain("unix.group") && Plain("unix.gid");
  }

  lemma CaseComposes(factName: string, name: string, known: string)
    requires IgnoringCase(name, factName) && IgnoringCase(name, known) && Plain(known)
    ensures IgnoringCase(factName, known)
  {
    forall i | 0 <= i < |factName|
      ensures factName[i] == known[i] || ('a' <= known[i] <= 'z' && factName[i] as int + 32 == known[i] as int)
    {
      assert PlainCharacter(known[i]);
      assert name[i] == known[i] || ('a' <= known[i] <= 'z' && name[i] as int + 32 == known[i] as int);
      assert name[i] == factName[i] || ('a' <= factName[i] <= 'z' && name[i] as int + 32 == factName[i] as int);
    }
  }

  // ---------------------------------------------------------------- entries are read

  /** What a fact for one of the properties has to say about the entry. */
  function ToldAt(e: Listed, k: Slot): (f: Option<Fact>)
    ensures f.Some? ==> SlotOf(f.value) == Some(k)
  {
    match k
    case TypeOf => if e.kind.Some? then Some(Meaning(TypeFact(e.kind.value))) else None
    case SizeOf => if e.size.Some? then Some(Size(Some(e.size.value))) else None
    case IDOf => if e.unique.Some? then Some(UniqueID(e.unique.value)) else None
    case TimeOf => if e.modified.Some? then Some(Modified(TimeMeant(e.modified.value))) else None
    case ModeOf => if e.mode.Some? then Some(Meaning(ModeFact(e.mode.value))) else None
    case OwnerNameOf => if e.ownerName.Some? then Some(OwnerName(e.ownerName.value)) else None
    case OwnerIDOf => if e.ownerID.Some? then Some(OwnerID(e.ownerID.value)) else None
    case GroupNameOf => if e.groupName.Some? then Some(GroupName(e.groupName.value)) else None
    case GroupIDOf => if e.groupID.Some? then Some(GroupID(e.groupID.value)) else None
  }

  predicate Tells(e: Listed, f: Fact) {
    f == Nothing || (SlotOf(f).Some? && ToldAt(e, SlotOf(f).value) == Some(f))
  }

  lemma HadFactTells(e: Listed, w: WireFact)
    requires WellFormed(e) && Has(e, w)
    ensures FactOk(w) && Tells(e, Meaning(w))
  {
  }

  /** Each property of the entry is told by one of the facts. */
  ghost predicate ToldBy(facts: seq<Fact>, e: Listed) {
    forall k | ToldAt(e, k).Some? :: ToldAt(e, k).value in facts
  }

  lemma TextsTell(texts: seq<string>, e: Listed)
    requires WellFormed(e) && Prints(texts, e)
    ensures FactTexts(texts) && forall f | f in FactsOf(texts + [""]) :: Tells(e, f)
  {
    forall i | 0 <= i < |texts| ensures IsFactText(texts[i]) && Tells(e, FactOf(texts[i])) {
      assert Shows(e, texts[i]);
      var w :| Has(e, w) && IsText(texts[i], w);
      HadFactTells(e, w);
      TextIsRead(texts[i], w);
    }
    forall f | f in FactsOf(texts + [""]) ensures Tells(e, f) {
      var i :| 0 <= i < |texts| + 1 && FactsOf(texts + [""])[i] == f;
      if i < |texts| { assert f == FactOf(texts[i]); }
    }
  }

  lemma ShownIsTold(texts: seq<string>, w: WireFact)
    requires FactOk(w) && ShownBy(texts, w)
    ensures Meaning(w) in FactsOf(texts + [""])
  {
    var i :| 0 <= i < |texts| && IsText(texts[i], w);
    TextIsRead(texts[i], w);
    assert FactsOf(texts + [""])[i] == FactOf(texts[i]);
  }

  lemma PrintedIsTold(texts: seq<string>, e: Listed)
    requires WellFormed(e) && Prints(texts, e)
    ensures ToldBy(FactsOf(texts + [""]), e)
  {
    forall k | ToldAt(e, k).Some? ensures ToldAt(e, k).value in FactsOf(texts + [""]) {
      WireMeans(e, k);
      var w := WireAt(e, k).value;
      ShownIsTold(texts, if ShownBy(texts, w) then w else Alias(w));
    }
  }

  lemma WireMeans(e: Listed, k: Slot)
    requires WellFormed(e) && ToldAt(e, k).Some?
    ensures WireAt(e, k).Some?
    ensures var w := WireAt(e, k).value;
            FactOk(w) && FactOk(Alias(w)) && Meaning(w) == ToldAt(e, k).value && Meaning(Alias(w)) == Meaning(w)
  {
    WireTells(e, k);
    var w := WireAt(e, k).value;
    WireIsHad(e, k);
    HadFactIsOk(e, w);
    AliasMeans(w);
  }

  lemma WireTells(e: Listed, k: Slot)
    ensures WireAt(e, k).Some? <==> ToldAt(e, k).Some?
    ensures WireAt(e, k).Some? ==> Meaning(WireAt(e, k).value) == ToldAt(e, k).value
  {
  }

  lemma AliasMeans(w: WireFact)
    requires FactOk(w)
    ensures FactOk(Alias(w)) && Meaning(Alias(w)) == Meaning(w)
  {
  }

  lemma TruthIsCompatible(facts: seq<Fact>, e: Listed)
    requires forall f | f in facts :: Tells(e, f)
    ensures Compatible(facts) && Drops !in facts && Throws !in facts
  {
    forall f, g | f in facts && g in facts && SlotOf(f).Some? && SlotOf(f) == SlotOf(g) ensures f == g {
      assert Tells(e, f) && Tells(e, g);
    }
    assert !Tells(e, Drops) && !Tells(e, Throws);
  }

  /** The sheet of facts that tell all and only the truth. */
  predicate SheetTells(m: Sheet, e: Listed, k: Slot) {
    if k in m then ToldAt(e, k) == Some(m[k]) else ToldAt(e, k) == None
  }

  lemma SlotTells(facts: seq<Fact>, m: Sheet, e: Listed, k: Slot)
    requires Lists(m, facts) && ToldBy(facts, e) && forall f | f in facts :: Tells(e, f)
    ensures SheetTells(m, e, k)
  {
    if k in m {
      assert m[k] in facts && Tells(e, m[k]);
    }
    assert ToldAt(e, k).Some? ==> ToldAt(e, k).value in facts && SlotOf(ToldAt(e, k).value) == Some(k);
  }

  lemma SheetDescribes(m: Sheet, e: Listed)
    requires SheetTells(m, e, TypeOf) && SheetTells(m, e, SizeOf) && SheetTells(m, e, IDOf)
    requires SheetTells(m, e, TimeOf) && SheetTells(m, e, ModeOf)
    requires SheetTells(m, e, OwnerNameOf) && SheetTells(m, e, OwnerIDOf)
    requires SheetTells(m, e, GroupNameOf) && SheetTells(m, e, GroupIDOf)
    ensures Described(e.name, m) == InfoOf(e)
  {
  }

  lemma TruthDescribes(facts: seq<Fact>, m: Sheet, e: Listed)
    requires Lists(m, facts) && ToldBy(facts, e) && forall f | f in facts :: Tells(e, f)
    ensures Described(e.name, m) == InfoOf(e)
  {
    forall k ensures SheetTells(m, e, k) {
      SlotTells(facts, m, e, k);
    }
    SheetDescribes(m, e);
  }

  /** However an entry is printed - its facts in any order, their names in any letter case, with aliases
      and unknown facts - it is read back as it is. */
  lemma PrintedIsRead(texts: seq<string>, e: Listed)
    requires WellFormed(e) && Prints(texts, e)
    ensures ReadLine(Pack(texts) + " " + e.name) == Entry(InfoOf(e))
  {
    var facts := FactsOf(texts + [""]);
    TextsTell(texts, e);
    PrintedIsTold(texts, e);
    TruthIsCompatible(facts, e);
    LineIsRead(texts, e.name);
    SheetLists(facts);
    ReadingIsDescription(e.name, facts, SheetOf(facts));
    TruthDescribes(facts, SheetOf(facts), e);
  }

  // ---------------------------------------------------------------- a printer

  function Texts(ws: seq<WireFact>): (texts: seq<string>)
    ensures |texts| == |ws| && forall i | 0 <= i < |ws| :: texts[i] == NameOf(ws[i]) + ("=" + ValueOf(ws[i]))
  {
    if ws == [] then [] else [NameOf(ws[0]) + ("=" + ValueOf(ws[0]))] + Texts(ws[1..])
  }

  const SLOTS := [TypeOf, SizeOf, IDOf, TimeOf, ModeOf, OwnerNameOf, OwnerIDOf, GroupNameOf, GroupIDOf]

  /** The facts of an entry for some properties, each once. */
  function FactsTold(e: Listed, ks: seq<Slot>): seq<WireFact> {
    if ks == [] then []
    else (if WireAt(e, ks[0]).Some? then [WireAt(e, ks[0]).value] else []) + FactsTold(e, ks[1..])
  }

  lemma WireIsHad(e: Listed, k: Slot)
    requires WireAt(e, k).Some?
    ensures Has(e, WireAt(e, k).value)
  {
  }

  lemma {:induction false} ToldIsHad(e: Listed, ks: seq<Slot>, w: WireFact)
    requires w in FactsTold(e, ks)
    ensures Has(e, w)
  {
    if WireAt(e, ks[0]) == Some(w) {
      WireIsHad(e, ks[0]);
    } else {
      ToldIsHad(e, ks[1..], w);
    }
  }

  lemma {:induction false} AllIsTold(e: Listed, ks: seq<Slot>, k: Slot)
    requires k in ks && WireAt(e, k).Some?
    ensures WireAt(e, k).value in FactsTold(e, ks)
  {
    if k != ks[0] {
      AllIsTold(e, ks[1..], k);
    }
  }

  function PrintLine(e: Listed): string {
    Pack(Texts(FactsTold(e, SLOTS))) + " " + e.name
  }

  lemma TextShows(ws: seq<WireFact>, w: WireFact)
    requires w in ws
    ensures ShownBy(Texts(ws), w)
  {
    var i :| 0 <= i < |ws| && ws[i] == w;
    WrittenIsText(Texts(ws)[i], w);
  }

  lemma WrittenIsText(t: string, w: WireFact)
    requires t == NameOf(w) + ("=" + ValueOf(w))
    ensures IsText(t, w)
  {
    var n := NameOf(w);
    assert t[..|n|] == n && t[|n|..] == "=" + ValueOf(w);
  }

  lemma WireIsShown(e: Listed, k: Slot)
    requires WireAt(e, k).Some?
    ensures ShownBy(Texts(FactsTold(e, SLOTS)), WireAt(e, k).value)
  {
    assert k in SLOTS by {
      assert SLOTS[0] == TypeOf && SLOTS[1] == SizeOf && SLOTS[2] == IDOf && SLOTS[3] == TimeOf && SLOTS[4] == ModeOf;
      assert SLOTS[5] == OwnerNameOf && SLOTS[6] == OwnerIDOf && SLOTS[7] == GroupNameOf && SLOTS[8] == GroupIDOf;
    }
    AllIsTold(e, SLOTS, k);
    TextShows(FactsTold(e, SLOTS), WireAt(e, k).value);
  }

  lemma PrintedPrints(e: Listed, texts: seq<string>)
    requires texts == Texts(FactsTold(e, SLOTS))
    ensures Prints(texts, e)
  {
    var ws := FactsTold(e, SLOTS);
    forall i | 0 <= i < |texts| ensures Shows(e, texts[i]) {
      assert ws[i] in ws;
      ToldIsHad(e, SLOTS, ws[i]);
      WrittenIsText(texts[i], ws[i]);
    }
    forall k | WireAt(e, k).Some? ensures ShownBy(texts, WireAt(e, k).value) {
      WireIsShown(e, k);
    }
  }

  /** Printing an entry and reading the line gives the entry. */
  lemma PrintReadRoundTrip(e: Listed)
    requires WellFormed(e)
    ensures ReadLine(PrintLine(e)) == Entry(InfoOf(e))
  {
    var texts := Texts(FactsTold(e, SLOTS));
    PrintedPrints(e, texts);
    PrintedIsRead(texts, e);
  }

  // ---------------------------------------------------------------- the directory itself

  /** "type=cdir" or "type=pdir", the name in any letter case. */
  predicate ListsDirectory(t: string) {
    |t| == 9 && IgnoringCase(t[..4], "type") && (t[4..] == "=cdir" || t[4..] == "=pdir")
  }

  lemma DirectoryDrops(t: string)
    requires ListsDirectory(t)
    ensures FactOf(t) == Drops && IsFactText(t)
  {
    var value := t[5..];
    assert t[4..][1..] == value && t[4..] == "=" + value;
    TextSplits(t, "type", value);
    DirectoryKinds(value);
    NamedTextIsRead(t, t[..4], "type", value);
  }

  lemma DirectoryKinds(value: string)
    requires "=" + value == "=cdir" || "=" + value == "=pdir"
    ensures FactNamed("type", value) == Drops && IsValue(value)
  {
    assert ("=" + value)[1..] == value;
    assert value == "cdir" || value == "pdir";
  }

  /** The entries of the directory itself and of its parent are not read, whatever else is told of them. */
  lemma DirectoryIsIgnored(texts: seq<string>, e: Listed, i: nat)
    requires WellFormed(e) && i < |texts| && ListsDirectory(texts[i])
    requires forall j | 0 <= j < |texts| :: Shows(e, texts[j]) || ListsDirectory(texts[j])
    ensures ReadLine(Pack(texts) + " " + e.name) == Ignored
  {
    forall j | 0 <= j < |texts| ensures IsFactText(texts[j]) && FactOf(texts[j]) != Throws {
      OneIsRead(e, texts[j]);
    }
    DirectoryDrops(texts[i]);
    DropsAndNoThrows(texts, i);
    LineIsRead(texts, e.name);
    ReadsToTheEnd(New(e.name), FactsOf(texts + [""]));
  }

  lemma OneIsRead(e: Listed, t: string)
    requires WellFormed(e) && (Shows(e, t) || ListsDirectory(t))
    ensures IsFactText(t) && FactOf(t) != Throws
  {
    if ListsDirectory(t) {
      DirectoryDrops(t);
    } else {
      var w :| Has(e, w) && IsText(t, w);
      HadFactTells(e, w);
      TextIsRead(t, w);
    }
  }

  lemma EmptyTextIsNothing(t: string)
    requires t == ""
    ensures FactOf(t) == Nothing
  {
  }

  lemma {:induction false} DropsAndNoThrows(texts: seq<string>, i: nat)
    requires i < |texts| && FactOf(texts[i]) == Drops
    requires forall j | 0 <= j < |texts| :: FactOf(texts[j]) != Throws
    ensures Drops in FactsOf(texts + [""]) && Throws !in FactsOf(texts + [""])
  {
    var all := texts + [""];
    EmptyTextIsNothing(all[|texts|]);
    forall j | 0 <= j < |all| ensures FactOf(all[j]) != Throws {
      if j < |texts| { assert all[j] == texts[j]; }
    }
    assert all[i] == texts[i];
    SomeAndNone(all, i);
  }

  lemma {:induction false} SomeAndNone(all: seq<string>, i: nat)
    requires i < |all| && FactOf(all[i]) == Drops
    requires forall j | 0 <= j < |all| :: FactOf(all[j]) != Throws
    ensures Drops in FactsOf(all) && Throws !in FactsOf(all)
  {
    var facts := FactsOf(all);
    assert facts[i] == Drops;
  }
}
