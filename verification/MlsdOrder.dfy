/** The facts of an MLSD line mean a set of properties: their order decides nothing, except between a
    fact that drops the entry and one that throws. */
module MlsdOrder {
  import opened ReplyParser
  import opened Mlsd
  import opened MlsxDate
  import opened Numbers

  datatype Slot = SizeOf | IDOf | TimeOf | TypeOf | ModeOf | OwnerNameOf | OwnerIDOf | GroupNameOf | GroupIDOf

  /** The property a fact sets; aliases such as unix.owner and unix.uid share one. */
  function SlotOf(f: Fact): Option<Slot> {
    match f
    case Nothing | Drops | Throws => None
    case Size(_) => Some(SizeOf)
    case UniqueID(_) => Some(IDOf)
    case Modified(_) => Some(TimeOf)
    case Type(_, _) => Some(TypeOf)
    case UnixMode(_) => Some(ModeOf)
    case OwnerName(_) => Some(OwnerNameOf)
    case OwnerID(_) => Some(OwnerIDOf)
    case GroupName(_) => Some(GroupNameOf)
    case GroupID(_) => Some(GroupIDOf)
  }

  /** No property is given two different values, by one name or by aliases. */
  ghost predicate Compatible(facts: seq<Fact>) {
    forall f, g | f in facts && g in facts && SlotOf(f).Some? && SlotOf(f) == SlotOf(g) :: f == g
  }

  type Sheet = map<Slot, Fact>

  /** The sheet holds exactly the given properties. */
  ghost predicate Lists(m: Sheet, facts: seq<Fact>) {
    && (forall f | f in facts && SlotOf(f).Some? :: SlotOf(f).value in m && m[SlotOf(f).value] == f)
    && (forall k | k in m :: m[k] in facts && SlotOf(m[k]) == Some(k))
  }

  /** The entry that a set of properties describes: names of owner and group win over their IDs. */
  function Described(name: string, m: Sheet): Info {
    Info(
      name,
      if TypeOf in m && m[TypeOf].Type? then m[TypeOf].kind else UnknownKind,
      if SizeOf in m && m[SizeOf].Size? then m[SizeOf].size else Some(0),
      if TimeOf in m && m[TimeOf].Modified? then Some(m[TimeOf].time) else None,
      if ModeOf in m && m[ModeOf].UnixMode? then Some(m[ModeOf].permissions) else None,
      if TypeOf in m && m[TypeOf].Type? then m[TypeOf].target else None,
      if GroupNameOf in m && m[GroupNameOf].GroupName? then Some(m[GroupNameOf].group)
      else if GroupIDOf in m && m[GroupIDOf].GroupID? then Some(m[GroupIDOf].group) else None,
      if OwnerNameOf in m && m[OwnerNameOf].OwnerName? then Some(m[OwnerNameOf].owner)
      else if OwnerIDOf in m && m[OwnerIDOf].OwnerID? then Some(m[OwnerIDOf].owner) else None,
      if IDOf in m && m[IDOf].UniqueID? then Some(m[IDOf].id) else None)
  }

  function SheetOf(facts: seq<Fact>): Sheet {
    if facts == [] then map[]
    else Add(SheetOf(facts[..|facts| - 1]), facts[|facts| - 1])
  }

  function Add(m: Sheet, f: Fact): Sheet {
    if SlotOf(f).Some? then m[SlotOf(f).value := f] else m
  }

  lemma {:induction false} SheetLists(facts: seq<Fact>)
    requires Compatible(facts)
    ensures Lists(SheetOf(facts), facts)
  {
    if facts != [] {
      var before, f := facts[..|facts| - 1], facts[|facts| - 1];
      assert facts == before + [f];
      SheetLists(before);
    }
  }

  lemma SheetsAgree(m: Sheet, n: Sheet, facts: seq<Fact>, facts': seq<Fact>)
    requires Lists(m, facts) && Lists(n, facts') && forall f :: f in facts <==> f in facts'
    ensures m == n
  {
    forall k | k in m ensures k in n && n[k] == m[k] {
      assert m[k] in facts';
    }
    forall k | k in n ensures k in m {
      assert n[k] in facts;
    }
  }

  function ApplyAll(i: Info, facts: seq<Fact>): Info {
    if facts == [] then i else Apply(ApplyAll(i, facts[..|facts| - 1]), facts[|facts| - 1])
  }

  lemma {:induction false} ApplyAllConcat(i: Info, f: Fact, facts: seq<Fact>)
    ensures ApplyAll(Apply(i, f), facts) == ApplyAll(i, [f] + facts)
    decreases |facts|
  {
    var all := [f] + facts;
    if facts == [] {
      assert all[..0] == [];
    } else {
      assert all[..|all| - 1] == [f] + facts[..|facts| - 1];
      ApplyAllConcat(i, f, facts[..|facts| - 1]);
    }
  }

  lemma {:induction false} ReadsToTheEnd(i: Info, facts: seq<Fact>)
    ensures Drops !in facts && Throws !in facts ==> ReadAll(i, facts) == Entry(ApplyAll(i, facts))
    ensures Drops in facts && Throws !in facts ==> ReadAll(i, facts) == Ignored
    ensures Throws in facts && Drops !in facts ==> ReadAll(i, facts) == Threw
    decreases |facts|
  {
    if facts != [] {
      var rest := facts[1..];
      assert facts == [facts[0]] + rest;
      ReadsToTheEnd(Apply(i, facts[0]), rest);
      ApplyAllConcat(i, facts[0], rest);
    }
  }

  lemma {:induction false} ApplyAllDescribes(name: string, facts: seq<Fact>)
    requires Compatible(facts)
    ensures ApplyAll(New(name), facts) == Described(name, SheetOf(facts))
  {
    if facts != [] {
      var before, f := facts[..|facts| - 1], facts[|facts| - 1];
      assert facts == before + [f];
      ApplyAllDescribes(name, before);
      NoSecondValue(before, f);
      ApplyIsAdd(name, SheetOf(before), f);
    }
  }

  /** The sheet holds nothing but facts at their slots, and no other value for the slot of `f`. */
  ghost predicate RoomFor(m: Sheet, f: Fact) {
    && (forall k | k in m :: SlotOf(m[k]) == Some(k))
    && (SlotOf(f).Some? && SlotOf(f).value in m ==> m[SlotOf(f).value] == f)
  }

  lemma NoSecondValue(before: seq<Fact>, f: Fact)
    requires Compatible(before + [f])
    ensures Compatible(before) && RoomFor(SheetOf(before), f)
  {
    assert forall g | g in before :: g in before + [f];
    SheetLists(before);
    var m := SheetOf(before);
    if SlotOf(f).Some? && SlotOf(f).value in m {
      assert m[SlotOf(f).value] in before + [f] && f in before + [f];
    }
  }

  /** Setting a property that has no other value is adding it to the sheet. */
  lemma ApplyIsAdd(name: string, m: Sheet, f: Fact)
    requires RoomFor(m, f)
    ensures Apply(Described(name, m), f) == Described(name, Add(m, f))
  {
    match f {
      case OwnerName(_) => OwnerNameIsAdded(name, m, f);
      case OwnerID(_) => OwnerIDIsAdded(name, m, f);
      case GroupName(_) => GroupNameIsAdded(name, m, f);
      case GroupID(_) => GroupIDIsAdded(name, m, f);
      case Type(_, _) => TypeIsAdded(name, m, f);
      case _ => OtherIsAdded(name, m, f);
    }
  }

  lemma OwnerNameIsAdded(name: string, m: Sheet, f: Fact)
    requires f.OwnerName?
    ensures Apply(Described(name, m), f) == Described(name, m[OwnerNameOf := f])
  {
  }

  lemma OwnerIDIsAdded(name: string, m: Sheet, f: Fact)
    requires f.OwnerID? && (OwnerIDOf in m ==> m[OwnerIDOf] == f)
    ensures Apply(Described(name, m), f) == Described(name, m[OwnerIDOf := f])
  {
  }

  lemma GroupNameIsAdded(name: string, m: Sheet, f: Fact)
    requires f.GroupName?
    ensures Apply(Described(name, m), f) == Described(name, m[GroupNameOf := f])
  {
  }

  lemma GroupIDIsAdded(name: string, m: Sheet, f: Fact)
    requires f.GroupID? && (GroupIDOf in m ==> m[GroupIDOf] == f)
    ensures Apply(Described(name, m), f) == Described(name, m[GroupIDOf := f])
  {
  }

  lemma TypeIsAdded(name: string, m: Sheet, f: Fact)
    requires f.Type? && (TypeOf in m ==> m[TypeOf] == f)
    ensures Apply(Described(name, m), f) == Described(name, m[TypeOf := f])
  {
  }

  lemma OtherIsAdded(name: string, m: Sheet, f: Fact)
    requires f.Nothing? || f.Drops? || f.Throws? || f.Size? || f.UniqueID? || f.Modified? || f.UnixMode?
    ensures Apply(Described(name, m), f) == Described(name, Add(m, f))
  {
  }

  /** The entry read from compatible facts is the one they describe as a set. */
  lemma ReadingIsDescription(name: string, facts: seq<Fact>, m: Sheet)
    requires Compatible(facts) && Lists(m, facts) && Drops !in facts && Throws !in facts
    ensures ReadAll(New(name), facts) == Entry(Described(name, m))
  {
    ReadsToTheEnd(New(name), facts);
    ApplyAllDescribes(name, facts);
    SheetLists(facts);
    SheetsAgree(m, SheetOf(facts), facts, facts);
  }

  /** Names given in the facts win over IDs wherever they stand. */
  lemma NamesWin(name: string, facts: seq<Fact>, s: string)
    requires Compatible(facts) && Drops !in facts && Throws !in facts
    ensures var r := ReadAll(New(name), facts);
            && r.Entry?
            && (OwnerName(s) in facts ==> r.info.user == Some(s))
            && (GroupName(s) in facts ==> r.info.group == Some(s))
            && (OwnerID(s) in facts && (forall n :: OwnerName(n) !in facts) ==> r.info.user == Some(s))
            && (GroupID(s) in facts && (forall n :: GroupName(n) !in facts) ==> r.info.group == Some(s))
  {
    SheetLists(facts);
    ReadingIsDescription(name, facts, SheetOf(facts));
    DescribedNames(name, SheetOf(facts), facts, s);
  }

  lemma DescribedNames(name: string, m: Sheet, facts: seq<Fact>, s: string)
    requires Lists(m, facts)
    ensures var i := Described(name, m);
            && (OwnerName(s) in facts ==> i.user == Some(s))
            && (GroupName(s) in facts ==> i.group == Some(s))
            && (OwnerID(s) in facts && (forall n :: OwnerName(n) !in facts) ==> i.user == Some(s))
            && (GroupID(s) in facts && (forall n :: GroupName(n) !in facts) ==> i.group == Some(s))
  {
    if OwnerName(s) in facts { assert m[OwnerNameOf] == OwnerName(s); }
    if GroupName(s) in facts { assert m[GroupNameOf] == GroupName(s); }
    if OwnerID(s) in facts { assert m[OwnerIDOf] == OwnerID(s); }
    if GroupID(s) in facts { assert m[GroupIDOf] == GroupID(s); }
    if OwnerNameOf in m && m[OwnerNameOf].OwnerName? { assert OwnerName(m[OwnerNameOf].owner) in facts; }
    if GroupNameOf in m && m[GroupNameOf].GroupName? { assert GroupName(m[GroupNameOf].group) in facts; }
  }

  lemma SameFactsSameReading(name: string, facts: seq<Fact>, facts': seq<Fact>)
    requires Compatible(facts) && !(Drops in facts && Throws in facts)
    requires forall f :: f in facts <==> f in facts'
    ensures ReadAll(New(name), facts') == ReadAll(New(name), facts)
  {
    ReadsToTheEnd(New(name), facts);
    ReadsToTheEnd(New(name), facts');
    if Drops !in facts && Throws !in facts {
      SheetLists(facts);
      SheetLists(facts');
      SheetsAgree(SheetOf(facts), SheetOf(facts'), facts, facts');
      ApplyAllDescribes(name, facts);
      ApplyAllDescribes(name, facts');
    }
  }

  lemma MoveToFront(facts: seq<Fact>, f: Fact) returns (facts': seq<Fact>)
    requires f in facts
    ensures facts' != [] && facts'[0] == f && multiset(facts') == multiset(facts)
  {
    var i :| 0 <= i < |facts| && facts[i] == f;
    facts' := [f] + facts[..i] + facts[i + 1..];
    assert facts == facts[..i] + [f] + facts[i + 1..];
  }

  /** Compatible facts read the same in every order exactly if they do not hold both a fact that drops
      the entry and one that throws. */
  lemma OrderIrrelevantExactly(name: string, facts: seq<Fact>)
    requires Compatible(facts)
    ensures (forall facts' | multiset(facts') == multiset(facts) ::
               ReadAll(New(name), facts') == ReadAll(New(name), facts))
            <==> !(Drops in facts && Throws in facts)
  {
    if Drops in facts && Throws in facts {
      var a := MoveToFront(facts, Drops);
      var b := MoveToFront(facts, Throws);
      assert ReadAll(New(name), a) == Ignored && ReadAll(New(name), b) == Threw;
      assert ReadAll(New(name), a) != ReadAll(New(name), facts) || ReadAll(New(name), b) != ReadAll(New(name), facts);
    } else {
      forall facts' | multiset(facts') == multiset(facts)
        ensures ReadAll(New(name), facts') == ReadAll(New(name), facts)
      {
        forall f ensures f in facts <==> f in facts' {
          assert f in facts <==> f in multiset(facts);
        }
        SameFactsSameReading(name, facts, facts');
      }
    }
  }

  // ---------------------------------------------------------------- lines

  /** Facts as they stand in a line, each followed by a semicolon. */
  function Pack(facts: seq<string>): string {
    if facts == [] then "" else facts[0] + ";" + Pack(facts[1..])
  }

  predicate IsFactText(s: string) {
    ';' !in s && ' ' !in s
  }

  lemma {:induction false} IndexOfAfter(a: string, c: char, b: string)
    requires c !in a
    ensures IndexOf(a + [c] + b, c) == |a|
  {
    if a == "" {
      assert ([c] + b)[0] == c;
    } else {
      assert (a + [c] + b)[1..] == a[1..] + [c] + b;
      IndexOfAfter(a[1..], c, b);
    }
  }

  lemma SplitsFirst(a: string, c: char, b: string)
    requires c !in a
    ensures SplitAll(a + [c] + b, c) == [a] + SplitAll(b, c)
  {
    IndexOfAfter(a, c, b);
    var s := a + [c] + b;
    assert s[..|a|] == a && s[|a| + 1..] == b;
  }

  predicate FactTexts(texts: seq<string>) {
    forall i | 0 <= i < |texts| :: IsFactText(texts[i])
  }

  lemma {:induction false} PackSplits(facts: seq<string>)
    requires FactTexts(facts)
    ensures SplitAll(Pack(facts), ';') == facts + [""]
  {
    if facts != [] {
      var rest := facts[1..];
      assert FactTexts(rest) && IsFactText(facts[0]);
      PackSplits(rest);
      SplitsFirst(facts[0], ';', Pack(rest));
      ConcatAssociates([facts[0]], rest, [""]);
      assert facts == [facts[0]] + rest;
    }
  }

  lemma {:induction false} PackHasNoSpace(facts: seq<string>)
    requires FactTexts(facts)
    ensures ' ' !in Pack(facts)
  {
    if facts != [] {
      assert IsFactText(facts[0]);
      PackHasNoSpace(facts[1..]);
    }
  }

  lemma SplitsOnce(a: string, c: char, b: string)
    requires c !in a
    ensures SplitStringOnce(a + [c] + b, c) == (a, b)
  {
    IndexOfAfter(a, c, b);
    var s := a + [c] + b;
    assert s[..|a|] == a && s[|a| + 1..] == b;
  }

  /** The facts of a line and its name. */
  lemma LineSplits(texts: seq<string>, name: string)
    requires FactTexts(texts)
    ensures SplitStringOnce(Pack(texts) + " " + name, ' ') == (Pack(texts), name)
    ensures SplitAll(Pack(texts), ';') == texts + [""]
  {
    PackSplits(texts);
    PackHasNoSpace(texts);
    SplitsOnce(Pack(texts), ' ', name);
  }

  lemma LineIsRead(texts: seq<string>, name: string)
    requires FactTexts(texts)
    ensures ReadLine(Pack(texts) + " " + name) ==
            if name == "" || name == "." || name == ".." then Ignored else ReadAll(New(name), FactsOf(texts + [""]))
  {
    LineSplits(texts, name);
  }

  lemma SameTextsSameFacts(texts: seq<string>, texts': seq<string>)
    requires multiset(texts) == multiset(texts')
    ensures forall f | f in FactsOf(texts + [""]) :: f in FactsOf(texts' + [""])
  {
    forall f | f in FactsOf(texts + [""]) ensures f in FactsOf(texts' + [""]) {
      var i :| 0 <= i < |texts + [""]| && FactsOf(texts + [""])[i] == f;
      var t := (texts + [""])[i];
      assert t in texts ==> t in multiset(texts');
      assert t in texts' + [""];
      var j :| 0 <= j < |texts' + [""]| && (texts' + [""])[j] == t;
      assert FactsOf(texts' + [""])[j] == f;
    }
  }

  /** A line reads the same for every permutation of its facts. */
  lemma FactOrderIsIrrelevant(texts: seq<string>, texts': seq<string>, name: string)
    requires multiset(texts) == multiset(texts') && FactTexts(texts)
    requires Compatible(FactsOf(texts)) && !(Drops in FactsOf(texts) && Throws in FactsOf(texts))
    ensures ReadLine(Pack(texts') + " " + name) == ReadLine(Pack(texts) + " " + name)
  {
    forall i | 0 <= i < |texts'| ensures IsFactText(texts'[i]) {
      assert texts'[i] in multiset(texts);
      var j :| 0 <= j < |texts| && texts[j] == texts'[i];
    }
    LineIsRead(texts, name);
    LineIsRead(texts', name);
    SameReadingWithEmptyText(texts, texts', name);
  }

  lemma SameReadingWithEmptyText(texts: seq<string>, texts': seq<string>, name: string)
    requires multiset(texts) == multiset(texts')
    requires Compatible(FactsOf(texts)) && !(Drops in FactsOf(texts) && Throws in FactsOf(texts))
    ensures ReadAll(New(name), FactsOf(texts' + [""])) == ReadAll(New(name), FactsOf(texts + [""]))
  {
    SameTextsSameFacts(texts, texts');
    SameTextsSameFacts(texts', texts);
    EmptyTextAddsNothing(texts);
    SameFactsSameReading(name, FactsOf(texts + [""]), FactsOf(texts' + [""]));
  }

  lemma EmptyTextAddsNothing(texts: seq<string>)
    ensures forall f | f in FactsOf(texts + [""]) :: f in FactsOf(texts) || f == Nothing
  {
    forall f | f in FactsOf(texts + [""]) ensures f in FactsOf(texts) || f == Nothing {
      var i :| 0 <= i < |texts| + 1 && FactsOf(texts + [""])[i] == f;
      if i < |texts| { assert FactsOf(texts)[i] == f; }
    }
  }

  // ---------------------------------------------------------------- a line whose order matters

  lemma FactIsNamed(factName: string, value: string)
    requires '=' !in factName && value != ""
    ensures FactOf(factName + "=" + value) == FactNamed(ToLowerCase(factName), value)
  {
    SplitsOnce(factName, '=', value);
  }

  lemma {:induction false} LowerCaseStays(s: string)
    requires forall i | 0 <= i < |s| :: !('A' <= s[i] <= 'Z')
    ensures ToLowerCase(s) == s
  {
    if s != "" {
      LowerCaseStays(s[1..]);
    }
  }

  lemma LetterIsNoNumber(s: string)
    requires |s| == 1 && !IsSpace(s[0]) && !(0 <= DigitValue(s[0]) < 10) && s[0] != '.' && s[0] != '-' && s[0] != '+'
    ensures ToNumber(s) == None
  {
    assert TrimEnd(TrimStart(s)) == s;
  }

  lemma LetterIsNoDate(s: string)
    requires s == "x"
    ensures ParseMLSxDate(s) == None
  {
    LetterIsNoNumber(s);
    assert Slice(s, 0, 4) == s;
  }

  /** A fact that drops the entry. */
  lemma CurrentDirectoryDrops(name: string, value: string)
    requires name == "type" && value == "cdir"
    ensures FactOf(name + "=" + value) == Drops
  {
    FactIsNamed(name, value);
    LowerCaseStays(name);
    assert !StartsWith(value, "OS.unix=slink") by { assert value[0] != 'O'; }
  }

  /** Facts that throw: a time that is none, and the name of a property that every object has. */
  lemma InvalidTimeThrows(name: string, value: string)
    requires name == "modify" && value == "x"
    ensures FactOf(name + "=" + value) == Throws
  {
    FactIsNamed(name, value);
    LowerCaseStays(name);
    LetterIsNoDate(value);
  }

  lemma PrototypeThrows(name: string, value: string)
    requires name == "__proto__" && value != ""
    ensures FactOf(name + "=" + value) == Throws
  {
    FactIsNamed(name, value);
    LowerCaseStays(name);
  }

  /** With such facts a line is dropped or makes the parser throw, as the first of them has it. */
  lemma FirstOfThemDecides(name: string, drops: string, throws: string)
    requires name != "" && name != "." && name != ".." && FactTexts([drops, throws])
    requires FactOf(drops) == Drops && FactOf(throws) == Throws
    ensures ReadLine(Pack([drops, throws]) + " " + name) == Ignored
    ensures ReadLine(Pack([throws, drops]) + " " + name) == Threw
  {
    assert [drops, throws][0] == drops && [drops, throws][1] == throws;
    assert FactTexts([throws, drops]);
    LineIsRead([drops, throws], name);
    LineIsRead([throws, drops], name);
    assert FactsOf([drops, throws] + [""])[0] == Drops;
    assert FactsOf([throws, drops] + [""])[0] == Throws;
  }

  lemma PairDropsAndThrows(drops: string, throws: string)
    requires drops == "type=cdir" && throws == "modify=x"
    ensures FactOf(drops) == Drops && FactOf(throws) == Throws && IsFactText(drops) && IsFactText(throws)
  {
    assert drops == "type" + "=" + "cdir" && throws == "modify" + "=" + "x";
    CurrentDirectoryDrops("type", "cdir");
    InvalidTimeThrows("modify", "x");
  }

  /** "type=cdir" and "modify=x" in both orders. */
  lemma OrderMatters(name: string, drops: string, throws: string)
    requires name != "" && name != "." && name != ".."
    requires drops == "type=cdir" && throws == "modify=x"
    ensures ReadLine(Pack([drops, throws]) + " " + name) == Ignored
    ensures ReadLine(Pack([throws, drops]) + " " + name) == Threw
  {
    PairDropsAndThrows(drops, throws);
    FirstOfThemDecides(name, drops, throws);
  }
}
