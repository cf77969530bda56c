/** What src/FtpContext.ts:337-355 makes of a control stream that arrives in chunks: the
    remainder of one chunk is put in front of the next and parsed again. */
module ReplyStream {
  import opened ReplyParser

  // ---------------------------------------------------------------- lines of texts

  predicate OneLine(s: string) {
    forall i | 0 <= i < |s| :: s[i] != '\n'
  }

  predicate AllOneLine(lines: seq<string>) {
    forall i | 0 <= i < |lines| :: OneLine(lines[i])
  }

  /** Lines as the parser keeps them: without line feed and not blank. */
  predicate Printable(lines: seq<string>) {
    forall i | 0 <= i < |lines| :: OneLine(lines[i]) && !IsBlank(lines[i])
  }

  /** Each line followed by `eol`. */
  function Unlines(lines: seq<string>, eol: string): string {
    if lines == [] then "" else lines[0] + eol + Unlines(lines[1..], eol)
  }

  /** Empty, or ending with a line feed. */
  predicate Aligned(text: string) {
    text == "" || text[|text| - 1] == '\n'
  }

  function StripAll(lines: seq<string>): (r: seq<string>)
    ensures |r| == |lines| && forall i | 0 <= i < |r| :: r[i] == StripCR(lines[i])
  {
    if lines == [] then [] else [StripCR(lines[0])] + StripAll(lines[1..])
  }

  lemma LinesOfOneLine(s: string)
    requires OneLine(s)
    ensures Lines(s) == if IsBlank(s) then [] else [s]
  {
    assert LineEnd(s) == |s|;
    assert Split(s) == [s] && [s][1..] == [];
    assert NonBlank([]) == [];
  }

  /** The first line of a text and the lines after it. */
  lemma LinesCons(line: string, b: string)
    requires OneLine(line)
    ensures Lines(line + LF + b) == (if IsBlank(line) then [] else [StripCR(line)]) + Lines(b)
  {
    var t := line + LF + b;
    assert t[|line|] == '\n';
    assert LineEnd(t) == |line|;
    assert t[..|line|] == line && t[|line| + 1..] == b;
    StripKeepsBlank(line);
    var lines := Split(t);
    assert lines[0] == StripCR(line) && lines[1..] == Split(b);
  }

  lemma StripKeepsBlank(line: string)
    ensures IsBlank(StripCR(line)) == IsBlank(line)
  {
    var s := StripCR(line);
    if IsBlank(s) && s != line {
      forall i | 0 <= i < |line| ensures IsSpace(line[i]) {
        if i < |s| { assert s[i] == line[i]; }
      }
    }
  }

  lemma LinesConsConcat(line: string, a: string, b: string)
    requires OneLine(line) && Lines(a + b) == Lines(a) + Lines(b)
    ensures Lines(line + LF + (a + b)) == Lines(line + LF + a) + Lines(b)
  {
    LinesCons(line, a + b);
    LinesCons(line, a);
  }

  /** A text that ends with a line feed can be cut off: its lines do not depend on what follows. */
  lemma {:induction false} LinesConcat(a: string, b: string)
    requires Aligned(a)
    ensures Lines(a + b) == Lines(a) + Lines(b)
    decreases |a|
  {
    if a == "" {
      assert a + b == b;
      LinesOfOneLine("");
    } else {
      var i := LineEnd(a);
      var line, a' := a[..i], a[i + 1..];
      assert a == line + LF + a';
      assert a + b == line + LF + (a' + b);
      LinesConcat(a', b);
      LinesConsConcat(line, a', b);
    }
  }

  lemma StripAllCons(lines: seq<string>, more: seq<string>)
    requires lines != []
    ensures StripAll(lines) + more == [StripCR(lines[0])] + (StripAll(lines[1..]) + more)
  {
    ConcatAssociates([StripCR(lines[0])], StripAll(lines[1..]), more);
  }

  lemma {:induction false} LinesOfUnlines(lines: seq<string>, b: string)
    requires Printable(lines)
    ensures Lines(Unlines(lines, LF) + b) == StripAll(lines) + Lines(b)
    decreases |lines|
  {
    if lines == [] {
      assert Unlines(lines, LF) + b == b;
    } else {
      var u := Unlines(lines[1..], LF);
      assert Unlines(lines, LF) + b == lines[0] + LF + (u + b);
      LinesCons(lines[0], u + b);
      LinesOfUnlines(lines[1..], b);
      StripAllCons(lines, Lines(b));
    }
  }

  lemma {:induction false} LinesOfPrinted(lines: seq<string>)
    requires Printable(lines)
    ensures Lines(Unlines(lines, CRLF)) == lines
    decreases |lines|
  {
    if lines == [] {
      LinesOfOneLine("");
    } else {
      var u := Unlines(lines[1..], CRLF);
      var line := lines[0] + "\r";
      assert lines[0] + CRLF + u == line + LF + u;
      LinesCons(line, u);
      assert StripCR(line) == lines[0];
      StripKeepsBlank(line);
      assert Unlines(lines, CRLF) == line + LF + u;
      LinesOfPrinted(lines[1..]);
    }
  }

  /** After a line feed a stream without stray CR goes on without stray CR. */
  lemma TailHasNoStrayCr(line: string, tail: string)
    requires CrOnlyBeforeLf(line + LF + tail)
    ensures CrOnlyBeforeLf(tail)
  {
    var text := line + LF + tail;
    forall j | 0 <= j < |tail| && tail[j] == '\r' ensures j + 1 < |tail| && tail[j + 1] == '\n' {
      assert text[|line| + 1 + j] == '\r';
      assert j + 1 < |tail| ==> text[|line| + 1 + j + 1] == tail[j + 1];
    }
  }

  lemma StrippedHasNoCr(line: string, tail: string)
    requires CrOnlyBeforeLf(line + LF + tail) && '\n' !in line
    ensures '\r' !in StripCR(line)
  {
    var text := line + LF + tail;
    forall j | 0 <= j < |StripCR(line)| ensures StripCR(line)[j] != '\r' {
      assert text[j] == line[j];
      if j + 1 < |line| { assert text[j + 1] == line[j + 1] && line[j + 1] in line; }
    }
  }

  lemma LastHasNoCr(text: string)
    requires CrOnlyBeforeLf(text) && '\n' !in text
    ensures '\r' !in text
  {
    forall j | 0 <= j < |text| ensures text[j] != '\r' {
      if j + 1 < |text| { assert text[j + 1] in text; }
    }
  }

  /** Parsed lines hold no line feed and are not blank; without stray CR they hold no CR. */
  lemma {:induction false} LinesClean(text: string)
    ensures Printable(Lines(text))
    ensures CrOnlyBeforeLf(text) ==> forall l | l in Lines(text) :: '\r' !in l
    decreases |text|
  {
    var i := LineEnd(text);
    if i == |text| {
      LinesOfOneLine(text);
      if CrOnlyBeforeLf(text) { LastHasNoCr(text); }
    } else {
      var line, tail := text[..i], text[i + 1..];
      assert text == line + LF + tail;
      LinesCons(line, tail);
      LinesClean(tail);
      StripKeepsBlank(line);
      if CrOnlyBeforeLf(text) {
        TailHasNoStrayCr(line, tail);
        StrippedHasNoCr(line, tail);
      }
    }
  }

  /** Every CR of the stream is the first half of a CRLF. */
  predicate CrOnlyBeforeLf(text: string) {
    forall i | 0 <= i < |text| && text[i] == '\r' :: i + 1 < |text| && text[i + 1] == '\n'
  }

  // ---------------------------------------------------------------- remainders

  lemma {:induction false} RestIsUnlines(open: seq<string>)
    ensures RestOf(open) == Unlines(open, LF)
    decreases |open|
  {
    if |open| > 1 {
      RestIsUnlines(open[1..]);
      assert Join(open) + LF == open[0] + LF + (Join(open[1..]) + LF);
    } else if |open| == 1 {
      assert open[0] + LF + Unlines([], LF) == open[0] + LF;
      assert open[1..] == [];
    }
  }

  lemma {:induction false} UnlinesAligned(lines: seq<string>)
    ensures Aligned(Unlines(lines, LF))
    decreases |lines|
  {
    if lines != [] {
      UnlinesAligned(lines[1..]);
    }
  }

  /** What a scan of a text leaves open: printable lines that form an unclosed group. */
  lemma OpenLines(text: string)
    ensures var o := FeedAll(START, Lines(text)).open;
            && (o == [] || Unclosed(o))
            && Printable(o)
            && (forall l | l in o :: l in Lines(text))
  {
    var items := ScanIsGrammatical(Lines(text));
    LinesClean(text);
    var o := FeedAll(START, Lines(text)).open;
    assert Lines(text) == Flatten(items) + o;
    forall i | 0 <= i < |o| ensures o[i] in Lines(text) && OneLine(o[i]) && !IsBlank(o[i]) {
      assert o[i] == Lines(text)[|Flatten(items)| + i];
    }
  }

  /** Replies are only ever appended, and earlier ones do not influence later ones. */
  lemma {:induction false} FeedPrefix(m: seq<string>, s: Scan, lines: seq<string>)
    ensures FeedAll(Scan(m + s.messages, s.open), lines)
         == Scan(m + FeedAll(s, lines).messages, FeedAll(s, lines).open)
    decreases |lines|
  {
    if lines != [] {
      var t := Feed(s, lines[0]);
      var t' := Feed(Scan(m + s.messages, s.open), lines[0]);
      assert t'.messages == m + t.messages;
      FeedPrefix(m, t, lines[1..]);
    }
  }

  // ---------------------------------------------------------------- round trip

  /** Printing any list of replies, noise and a last unclosed group with CRLF and parsing it gives
      back the replies in order; only the unclosed group is kept for later. */
  lemma PrintParseRoundTrip(items: seq<Item>, open: seq<string>)
    requires AllWellFormed(items)
    requires open == [] || Unclosed(open)
    requires Printable(Flatten(items) + open)
    ensures Parse(Unlines(Flatten(items) + open, CRLF)) == Parsed(Messages(items), Unlines(open, LF))
  {
    LinesOfPrinted(Flatten(items) + open);
    ScanReadsItems(START, items, open);
    assert [] + Messages(items) == Messages(items);
    RestIsUnlines(open);
  }

  /** Every parsed message begins with the three digits of its reply code. */
  lemma MessagesHaveCodes(text: string)
    ensures forall m | m in Parse(text).messages :: HasCode(m)
  {
    var items := ScanIsGrammatical(Lines(text));
    ItemsHaveCodes(items);
  }

  lemma {:induction false} ItemsHaveCodes(items: seq<Item>)
    requires AllWellFormed(items)
    ensures forall m | m in Messages(items) :: HasCode(m)
    decreases |items|
  {
    if items != [] {
      ItemsHaveCodes(items[1..]);
      if items[0].Reply? {
        var ls := items[0].lines;
        assert |ls| > 1 ==> ls[..|ls| - 1][0] == ls[0];
        assert HasCode(ls[0]) && ls[0] <= Join(ls);
      }
    }
  }

  // ---------------------------------------------------------------- where a stream may be cut

  /** Parse `a`, keep its remainder, and parse it again in front of `b`. */
  function Resume(a: string, b: string): Parsed {
    var p := Parse(a);
    var q := Parse(p.rest + b);
    Parsed(p.messages + q.messages, q.rest)
  }

  predicate HasCrLf(text: string) {
    exists i :: 0 < i < |text| && text[i - 1] == '\r' && text[i] == '\n'
  }

  /** Cutting after `a` is invisible, whatever follows. */
  ghost predicate SafeCut(a: string) {
    forall b :: Resume(a, b) == Parse(a + b)
  }

  /** Exactly the cuts after a line feed that leave no CRLF in the remainder are safe. */
  lemma SafeCutExactly(a: string)
    ensures SafeCut(a) <==> Aligned(a) && !HasCrLf(Parse(a).rest)
  {
    if Aligned(a) && !HasCrLf(Parse(a).rest) {
      forall b ensures Resume(a, b) == Parse(a + b) {
        AlignedCutIsSafe(a, b);
      }
    } else if Aligned(a) {
      CrLfRemainderIsUnsafe(a);
      assert a + "" == a;
      assert Resume(a, "") != Parse(a + "");
    } else {
      var b := UnalignedCutIsUnsafe(a);
      assert Resume(a, b) != Parse(a + b);
    }
  }

  /** Where a CRLF can be in a text that begins with a line. */
  lemma CrLfAfterLine(line: string, tail: string)
    requires OneLine(line)
    ensures HasCrLf(line + LF + tail) <==> HasCrLf(tail) || StripCR(line) != line
  {
    var u := line + LF + tail;
    if HasCrLf(tail) {
      var i :| 0 < i < |tail| && tail[i - 1] == '\r' && tail[i] == '\n';
      assert u[|line| + 1 + i - 1] == '\r' && u[|line| + 1 + i] == '\n';
    }
    if StripCR(line) != line {
      assert u[|line| - 1] == '\r' && u[|line|] == '\n';
    }
    if HasCrLf(u) && StripCR(line) == line {
      var i :| 0 < i < |u| && u[i - 1] == '\r' && u[i] == '\n';
      assert forall k | 0 <= k < |line| :: u[k] == line[k];
      if i > |line| + 1 {
        assert tail[i - |line| - 2] == '\r' && tail[i - |line| - 1] == '\n';
      }
    }
  }

  lemma {:induction false} CrLfInUnlines(lines: seq<string>)
    requires AllOneLine(lines)
    ensures HasCrLf(Unlines(lines, LF)) <==> exists l | l in lines :: StripCR(l) != l
    decreases |lines|
  {
    if lines != [] {
      var line, tail := lines[0], Unlines(lines[1..], LF);
      assert Unlines(lines, LF) == line + LF + tail;
      CrLfInUnlines(lines[1..]);
      CrLfAfterLine(line, tail);
      assert lines == [line] + lines[1..];
    }
  }

  /** Feeding an unclosed group and what follows it, from the start or after some messages. */
  lemma FeedOpenGroup(s: Scan, more: seq<string>)
    requires s.open == [] || Unclosed(s.open)
    ensures var q := FeedAll(START, s.open + more);
            FeedAll(s, more) == Scan(s.messages + q.messages, q.open)
  {
    FeedConcat(START, s.open, more);
    if s.open != [] {
      FeedGroup(START, s.open);
    }
    FeedPrefix(s.messages, Scan([], s.open), more);
    assert s.messages + [] == s.messages;
  }

  lemma StripNothing(lines: seq<string>)
    requires forall l | l in lines :: StripCR(l) == l
    ensures StripAll(lines) == lines
  {
  }

  lemma AlignedCutIsSafe(a: string, b: string)
    requires Aligned(a) && !HasCrLf(Parse(a).rest)
    ensures Resume(a, b) == Parse(a + b)
  {
    var s := FeedAll(START, Lines(a));
    OpenLines(a);
    RestIsUnlines(s.open);
    CrLfInUnlines(s.open);
    LinesOfUnlines(s.open, b);
    StripNothing(s.open);
    LinesConcat(a, b);
    FeedConcat(START, Lines(a), Lines(b));
    FeedOpenGroup(s, Lines(b));
  }

  lemma {:induction false} CountLf(lines: seq<string>)
    requires AllOneLine(lines)
    ensures multiset(Unlines(lines, LF))['\n'] == |lines|
    decreases |lines|
  {
    if lines != [] {
      CountLf(lines[1..]);
      assert Unlines(lines, LF) == lines[0] + LF + Unlines(lines[1..], LF);
      assert '\n' !in multiset(lines[0]);
    }
  }

  /** Fed to a fresh scan, a group opener and more lines either complete a reply or all stay open. */
  lemma {:induction false} FeedFromOpener(lines: seq<string>)
    requires lines != [] && IsMultiline(lines[0])
    ensures var s := FeedAll(START, lines); s.messages == [] ==> s.open == lines
    decreases |lines|
  {
    var n := |lines| - 1;
    assert lines == lines[..n] + [lines[n]];
    FeedSnoc(START, lines[..n], lines[n]);
    if n > 0 {
      FeedFromOpener(lines[..n]);
    }
  }

  /** `Resume` on the level of scans: the open lines, normalised once more, come first. */
  lemma ResumeScan(a: string, b: string)
    ensures var p := FeedAll(START, Lines(a));
            var q := FeedAll(START, StripAll(p.open) + Lines(b));
            && Resume(a, b) == Parsed(p.messages + q.messages, RestOf(q.open))
            && AllOneLine(q.open)
            && (p.open != [] && q.messages == [] ==> q.open == StripAll(p.open) + Lines(b))
  {
    var p := FeedAll(START, Lines(a));
    OpenLines(a);
    RestIsUnlines(p.open);
    LinesOfUnlines(p.open, b);
    OpenLines(RestOf(p.open) + b);
    if p.open != [] {
      FeedFromOpener(StripAll(p.open) + Lines(b));
    }
  }

  lemma RestCountsLines(o1: seq<string>, o2: seq<string>)
    requires AllOneLine(o1) && AllOneLine(o2) && RestOf(o1) == RestOf(o2)
    ensures |o1| == |o2|
  {
    RestIsUnlines(o1);
    RestIsUnlines(o2);
    CountLf(o1);
    CountLf(o2);
  }

  lemma {:induction false} StripShortens(lines: seq<string>)
    ensures |Unlines(StripAll(lines), LF)| <= |Unlines(lines, LF)|
    ensures StripAll(lines) != lines ==> |Unlines(StripAll(lines), LF)| < |Unlines(lines, LF)|
    decreases |lines|
  {
    if lines != [] {
      StripShortens(lines[1..]);
      assert StripAll(lines)[1..] == StripAll(lines[1..]);
      assert lines == [lines[0]] + lines[1..] && StripAll(lines) == [StripCR(lines[0])] + StripAll(lines[1..]);
    }
  }

  lemma CrLfRemainderIsUnsafe(a: string)
    requires HasCrLf(Parse(a).rest)
    ensures Resume(a, "") != Parse(a)
  {
    var p := FeedAll(START, Lines(a));
    OpenLines(a);
    RestIsUnlines(p.open);
    CrLfInUnlines(p.open);
    LinesOfOneLine("");
    ResumeScan(a, "");
    var again := StripAll(p.open);
    assert again + Lines("") == again;
    assert again != p.open;
    StripShortens(p.open);
    RestIsUnlines(again);
  }

  /** The part of a text after its last line feed. */
  lemma {:induction false} LastLine(a: string) returns (head: string, tail: string)
    ensures a == head + tail && Aligned(head) && OneLine(tail) && (!Aligned(a) ==> tail != "")
    decreases |a|
  {
    if Aligned(a) {
      head, tail := a, "";
    } else {
      var n := |a| - 1;
      head, tail := LastLine(a[..n]);
      tail := tail + [a[n]];
    }
  }

  /** A continuation that betrays a cut after `tail`, inside a line. */
  function Betrayal(s: Scan, tail: string): string {
    if s.open != [] && IsBlank(tail) then Token(s.open[0])
    else if s.open != [] || IsMultiline(tail) || IsSingleLine(tail) then "X"
    else "200 OK"
  }

  lemma BetrayalIsALine(s: Scan, tail: string)
    requires OneLine(tail) && (s.open == [] || Unclosed(s.open))
    ensures var b := Betrayal(s, tail); Lines(b) == [b] && Lines(tail + b) == [tail + b]
  {
    LineWithTail(Betrayal(s, tail), tail);
  }

  lemma LineWithTail(b: string, tail: string)
    requires OneLine(tail) && OneLine(b) && b != "" && !IsSpace(b[0])
    ensures Lines(b) == [b] && Lines(tail + b) == [tail + b]
  {
    LinesOfOneLine(b);
    LinesOfOneLine(tail + b);
    assert (tail + b)[|tail|] == b[0];
  }

  /** Reading a line in one piece (`w`) or cut in two (`p`, then `q`) gives different messages, or
      a group that stays open in both has a different number of lines. */
  ghost predicate Betrayed(w: Scan, p: Scan, q: Scan) {
    if p.open == [] || q.messages != [] then p.messages + q.messages != w.messages
    else w.messages != p.messages || |w.open| == |p.open|
  }

  lemma LastDiffers(m: seq<string>, x: string, y: string)
    requires x != y
    ensures m + [x] != m + [y] && m + [x] != m
  {
    assert (m + [x])[|m|] == x && (m + [y])[|m|] == y;
  }

  lemma CutNoise(s: Scan, tail: string)
    requires s.open == [] && !IsMultiline(tail) && !IsSingleLine(tail) && tail != ""
    ensures Feed(s, tail) == s && Feed(s, tail + "200 OK") == s
  {
    var x := tail + "200 OK";
    assert |tail| >= 4 ==> x[..4] == tail[..4];
    assert |tail| < 4 ==> x[|tail|] == '2';
    assert |tail| < 3 ==> x[|tail| + 1] == '0';
    assert |tail| < 2 ==> x[|tail| + 2] == '0';
  }

  lemma CutOutsideGroup(s: Scan, tail: string)
    requires tail != "" && OneLine(tail) && s.open == []
    ensures var b := Betrayal(s, tail);
            var p := FeedAll(s, Lines(tail));
            Betrayed(Feed(s, tail + b), p, FeedAll(START, StripAll(p.open) + [b]))
  {
    var b := Betrayal(s, tail);
    LinesOfOneLine(tail);
    FeedOne(s, tail);
    FeedOne(START, b);
    assert [] + [b] == [b];
    if IsMultiline(tail) {
      assert Feed(s, tail + b) == s.(open := [tail + b]);
      var q := FeedAll(START, StripAll([tail]) + [b]);
      assert q.messages != [] ==> |s.messages + q.messages| > |s.messages|;
    } else if IsSingleLine(tail) {
      assert Feed(s, tail).messages == s.messages + [tail];
      assert |tail + b| != |tail|;
      LastDiffers(s.messages, tail, tail + b);
      assert !IsMultiline(tail + b);
      assert s.messages + [tail] + [] == s.messages + [tail];
    } else {
      CutNoise(s, tail);
      assert |s.messages + [b]| > |s.messages|;
    }
  }

  lemma {:induction false} JoinSnoc(lines: seq<string>, line: string)
    requires lines != []
    ensures Join(lines + [line]) == Join(lines) + LF + line
    decreases |lines|
  {
    assert (lines + [line])[1..] == lines[1..] + [line];
    if |lines| > 1 {
      JoinSnoc(lines[1..], line);
    } else {
      assert lines[1..] + [line] == [line];
    }
  }

  /** A line with the code of an open group completes a reply. */
  lemma CodeCompletes(open: seq<string>)
    requires Unclosed(open)
    ensures FeedAll(START, StripAll(open) + [Token(open[0])]).messages != []
  {
    assert IsMultiline(StripCR(open[0])) && Token(StripCR(open[0])) == Token(open[0]);
    CodeEndsGroup(StripAll(open), Token(open[0]));
  }

  lemma CodeEndsGroup(group: seq<string>, code: string)
    requires group != [] && IsMultiline(group[0]) && code == Token(group[0])
    ensures FeedAll(START, group + [code]).messages != []
  {
    FeedFromOpener(group);
    FeedSnoc(START, group, code);
    assert Closes(code, code);
  }

  lemma CutInBlank(s: Scan, tail: string)
    requires tail != "" && IsBlank(tail) && OneLine(tail) && Unclosed(s.open)
    ensures var b := Betrayal(s, tail);
            var p := FeedAll(s, Lines(tail));
            Betrayed(Feed(s, tail + b), p, FeedAll(START, StripAll(p.open) + [b]))
  {
    var b := Betrayal(s, tail);
    LinesOfOneLine(tail);
    FeedOne(s, tail);
    assert IsSpace(tail[0]) && (tail + b)[0] == tail[0];
    assert IsDigit(Token(s.open[0])[0]);
    assert |tail + b| >= 3 ==> (tail + b)[..3][0] == tail[0];
    CodeCompletes(s.open);
    var q := FeedAll(START, StripAll(s.open) + [b]);
    assert |s.messages + q.messages| > |s.messages|;
  }

  lemma CutInsideGroup(s: Scan, tail: string)
    requires tail != "" && !IsBlank(tail) && OneLine(tail) && Unclosed(s.open)
    ensures var b := Betrayal(s, tail);
            var p := FeedAll(s, Lines(tail));
            Betrayed(Feed(s, tail + b), p, FeedAll(START, StripAll(p.open) + [b]))
  {
    var b := "X";
    LinesOfOneLine(tail);
    FeedOne(s, tail);
    FeedOne(START, b);
    assert [] + [b] == [b];
    var token, x := Token(s.open[0]), tail + b;
    if Closes(tail, token) {
      JoinSnoc(s.open, tail);
      JoinSnoc(s.open, x);
      var p, w := Feed(s, tail), Feed(s, x);
      assert p.messages == s.messages + [Join(s.open + [tail])];
      LastDiffers(s.messages, Join(s.open + [tail]), Join(s.open + [x]));
      assert w.messages == if Closes(x, token) then s.messages + [Join(s.open + [x])] else s.messages;
      assert p.messages + [] == p.messages;
    } else {
      assert |tail| >= 4 ==> x[..4] == tail[..4];
      assert |tail| == 3 ==> x[..3] == tail && x[3] == 'X';
      assert |tail| == 2 ==> x[2] == 'X';
      assert !Closes(x, token);
      var p := Feed(s, tail);
      var q := FeedAll(START, StripAll(p.open) + [b]);
      assert q.messages != [] ==> |p.messages + q.messages| > |s.messages|;
    }
  }

  /** Feeding a line whole or only its first part. */
  lemma FeedHeadAndTail(head: string, tail: string, b: string)
    requires Aligned(head) && Lines(tail + b) == [tail + b]
    ensures var s := FeedAll(START, Lines(head));
            && FeedAll(START, Lines(head + tail)) == FeedAll(s, Lines(tail))
            && FeedAll(START, Lines(head + (tail + b))) == Feed(s, tail + b)
  {
    LinesConcat(head, tail);
    LinesConcat(head, tail + b);
    FeedConcat(START, Lines(head), Lines(tail));
    FeedConcat(START, Lines(head), [tail + b]);
    FeedOne(FeedAll(START, Lines(head)), tail + b);
  }

  lemma TailIsBetrayed(s: Scan, tail: string)
    requires tail != "" && OneLine(tail) && (s.open == [] || Unclosed(s.open))
    ensures var b := Betrayal(s, tail);
            var p := FeedAll(s, Lines(tail));
            Betrayed(Feed(s, tail + b), p, FeedAll(START, StripAll(p.open) + [b]))
  {
    if s.open == [] {
      CutOutsideGroup(s, tail);
    } else if IsBlank(tail) {
      CutInBlank(s, tail);
    } else {
      CutInsideGroup(s, tail);
    }
  }

  lemma BetrayedParses(a: string, b: string)
    requires Lines(b) == [b]
    requires var p := FeedAll(START, Lines(a));
             Betrayed(FeedAll(START, Lines(a + b)), p, FeedAll(START, StripAll(p.open) + [b]))
    ensures Resume(a, b) != Parse(a + b)
  {
    ResumeScan(a, b);
    OpenLines(a + b);
    CompareParses(FeedAll(START, Lines(a + b)), FeedAll(START, Lines(a)), b);
  }

  lemma HeadAndTailBetrayed(head: string, tail: string) returns (b: string)
    requires Aligned(head) && OneLine(tail) && tail != ""
    ensures Lines(b) == [b]
    ensures var p := FeedAll(START, Lines(head + tail));
            Betrayed(FeedAll(START, Lines(head + (tail + b))), p, FeedAll(START, StripAll(p.open) + [b]))
  {
    var s := FeedAll(START, Lines(head));
    b := Betrayal(s, tail);
    assert s.open == [] || Unclosed(s.open) by { OpenLines(head); }
    BetrayalIsALine(s, tail);
    FeedHeadAndTail(head, tail, b);
    TailIsBetrayed(s, tail);
  }

  /** A cut inside a line is betrayed by some continuation. */
  lemma UnalignedCutIsUnsafe(a: string) returns (b: string)
    requires !Aligned(a)
    ensures Resume(a, b) != Parse(a + b)
  {
    var head, tail := LastLine(a);
    b := CutBetrayed(head, tail);
  }

  lemma CutBetrayed(head: string, tail: string) returns (b: string)
    requires Aligned(head) && OneLine(tail) && tail != ""
    ensures Resume(head + tail, b) != Parse(head + tail + b)
  {
    b := HeadAndTailBetrayed(head, tail);
    assert head + tail + b == head + (tail + b);
    BetrayedParses(head + tail, b);
  }

  lemma CompareParses(w: Scan, p: Scan, b: string)
    requires AllOneLine(w.open)
    requires var q := FeedAll(START, StripAll(p.open) + [b]);
             && Betrayed(w, p, q) && AllOneLine(q.open)
             && (p.open != [] && q.messages == [] ==> q.open == StripAll(p.open) + [b])
    ensures var q := FeedAll(START, StripAll(p.open) + [b]);
            Parsed(w.messages, RestOf(w.open)) != Parsed(p.messages + q.messages, RestOf(q.open))
  {
    var q := FeedAll(START, StripAll(p.open) + [b]);
    if RestOf(w.open) == RestOf(q.open) {
      RestCountsLines(w.open, q.open);
    }
  }

  lemma FeedOne(s: Scan, line: string)
    ensures FeedAll(s, [line]) == Feed(s, line)
    ensures FeedAll(s, []) == s
  {
    assert [line][1..] == [];
    assert FeedAll(Feed(s, line), []) == Feed(s, line);
  }

  // ---------------------------------------------------------------- kinds of lines

  predicate ThreeDigits(line: string) {
    |line| >= 3 && '0' <= line[0] <= '9' && '0' <= line[1] <= '9' && '0' <= line[2] <= '9'
  }

  /** Spaces and tabs make a blank line, a visible character one that is not. */
  lemma BlankOrNot(line: string)
    ensures (forall i | 0 <= i < |line| :: line[i] == ' ' || line[i] == '\t') ==> IsBlank(line)
    ensures (exists i :: 0 <= i < |line| && '!' <= line[i] <= '~') ==> !IsBlank(line)
  {
  }

  lemma LineAndEnd(line: string)
    requires OneLine(line)
    ensures Lines(line + CRLF) == if IsBlank(line) then [] else [line]
  {
    var withCr := line + "\r";
    assert line + CRLF == withCr + LF + "";
    LinesCons(withCr, "");
    LinesOfOneLine("");
    assert StripCR(withCr) == line;
    StripKeepsBlank(withCr);
  }

  /** A line outside of a group is a reply if it is a code, alone or followed by a space; it opens a group
      if the code is followed by a hyphen; any other line is dropped. */
  lemma LineMeans(line: string)
    requires OneLine(line)
    ensures Parse(line + CRLF) ==
              if ThreeDigits(line) && (|line| == 3 || line[3] == ' ') then Parsed([line], "")
              else if ThreeDigits(line) && line[3] == '-' then Parsed([], line + LF)
              else Parsed([], "")
  {
    LineAndEnd(line);
    if ThreeDigits(line) {
      OpenerIsNotBlank(line);
    }
    if !IsBlank(line) {
      FeedOne(START, line);
      AloneMeans(line);
    }
  }

  lemma AloneMeans(line: string)
    ensures var s := Feed(START, line);
            if ThreeDigits(line) && (|line| == 3 || line[3] == ' ') then s == Scan([line], [])
            else if ThreeDigits(line) && line[3] == '-' then s == Scan([], [line]) && RestOf(s.open) == line + LF
            else s == START
  {
    assert [] + [line] == [line];
  }

  lemma TwoLines(opener: string, line: string)
    ensures RestOf([opener]) == opener + LF && RestOf([opener, line]) == opener + LF + (line + LF)
    ensures Join([opener, line]) == opener + LF + line
  {
    var both := [opener, line];
    assert both[1..] == [line] && Join([line]) == line && Join([opener]) == opener;
    assert Join(both) == opener + LF + line;
    assert opener + LF + line + LF == opener + LF + (line + LF);
  }

  lemma InGroupMeans(opener: string, line: string)
    requires ThreeDigits(opener)
    ensures Feed(Scan([], [opener]), line) ==
              if |line| >= 3 && line[..3] == opener[..3] && (|line| == 3 || line[3] == ' ')
              then Scan([Join([opener, line])], []) else Scan([], [opener, line])
  {
    var s := Scan([], [opener]);
    assert s.open + [line] == [opener, line] && Token(s.open[0]) == opener[..3];
    var messages := [Join([opener, line])];
    assert s.messages + messages == messages;
  }

  /** In a group the opening code ends it, alone or followed by a space; any other line that is not blank
      belongs to it. */
  lemma LineInGroupMeans(opener: string, line: string)
    requires OneLine(opener) && OneLine(line) && ThreeDigits(opener) && |opener| > 3 && opener[3] == '-'
    ensures Parse(opener + CRLF + (line + CRLF)) ==
              if IsBlank(line) then Parsed([], opener + LF)
              else if |line| >= 3 && line[..3] == opener[..3] && (|line| == 3 || line[3] == ' ')
              then Parsed([opener + LF + line], "")
              else Parsed([], opener + LF + (line + LF))
  {
    LineAndEnd(opener);
    LineAndEnd(line);
    LinesConcat(opener + CRLF, line + CRLF);
    OpenerIsNotBlank(opener);
    AloneMeans(opener);
    FeedOne(START, opener);
    FeedConcat(START, [opener], Lines(line + CRLF));
    FeedOne(Scan([], [opener]), line);
    InGroupMeans(opener, line);
    TwoLines(opener, line);
  }

  lemma OpenerIsNotBlank(opener: string)
    requires ThreeDigits(opener)
    ensures !IsBlank(opener)
  {
    assert !IsSpace(opener[0]);
  }

  // ---------------------------------------------------------------- chunks and the size guard

  /** One chunk on the control socket with the stored remainder `partial`; None when the size guard
      trips, otherwise the messages to deliver and the new remainder. */
  function Receive(partial: string, chunk: string): Option<Parsed> {
    if |partial| + |chunk| > MAX_CONTROL_RESPONSE_LENGTH then None
    else Some(Parse(partial + chunk))
  }

  function ReceiveAll(partial: string, chunks: seq<string>): Option<Parsed>
    decreases |chunks|
  {
    if chunks == [] then Some(Parsed([], partial))
    else
      match Receive(partial, chunks[0])
      case None => None
      case Some(p) =>
        match ReceiveAll(p.rest, chunks[1..])
        case None => None
        case Some(q) => Some(Parsed(p.messages + q.messages, q.rest))
  }

  function Concat(chunks: seq<string>): string {
    if chunks == [] then "" else chunks[0] + Concat(chunks[1..])
  }

  /** Unless the size guard trips, a stream without stray CR that is cut after line feeds yields the
      same messages and remainder as if it had arrived in one piece. */
  lemma ChunkingIsInvisible(chunks: seq<string>)
    requires CrOnlyBeforeLf(Concat(chunks))
    requires forall i | 0 <= i < |chunks| - 1 :: Aligned(chunks[i])
    ensures var r := ReceiveAll("", chunks); r == None || r == Some(Parse(Concat(chunks)))
  {
    ParseNothing();
    assert "" + Concat(chunks) == Concat(chunks);
    AlignedChunks("", chunks);
    ResumeChunks("", chunks);
    ContinuesFromNothing(ReceiveAll("", chunks), Parse(Concat(chunks)));
  }

  lemma ContinuesFromNothing(r: Option<Parsed>, whole: Parsed)
    requires Continues(Parsed([], ""), r, whole)
    ensures r == None || r == Some(whole)
  {
    if r.Some? {
      assert [] + r.value.messages == r.value.messages;
    }
  }

  lemma ParseNothing()
    ensures Parse("") == Parsed([], "")
  {
    LinesOfOneLine("");
  }

  lemma ResumeChunk(a: string, c: string, rest: string)
    requires Aligned(a) && CrOnlyBeforeLf(a + (c + rest))
    ensures var p, q := Parse(a), Parse(Parse(a).rest + c);
            Parse(a + c) == Parsed(p.messages + q.messages, q.rest)
  {
    NoStrayCrInPrefix(a, c + rest);
    AlignedCutIsSafe(a, c);
  }

  lemma ReceiveCons(partial: string, chunks: seq<string>)
    requires chunks != [] && ReceiveAll(partial, chunks).Some?
    ensures var q := Parse(partial + chunks[0]);
            var r := ReceiveAll(q.rest, chunks[1..]);
            && r.Some?
            && ReceiveAll(partial, chunks) == Some(Parsed(q.messages + r.value.messages, r.value.rest))
  {
  }

  /** `whole` is what parsing in one piece gives; `p` was parsed before the chunks. */
  predicate Continues(p: Parsed, r: Option<Parsed>, whole: Parsed) {
    r == None || Parsed(p.messages + r.value.messages, r.value.rest) == whole
  }

  lemma ContinuesCons(p: Parsed, q: Parsed, r: Option<Parsed>, whole: Parsed)
    requires r.Some? && Continues(Parsed(p.messages + q.messages, q.rest), r, whole)
    ensures Continues(p, Some(Parsed(q.messages + r.value.messages, r.value.rest)), whole)
  {
    assert (p.messages + q.messages) + r.value.messages == p.messages + (q.messages + r.value.messages);
  }

  /** All chunks but the last end in a line feed, and so does what came before them. */
  predicate CutAfterLines(a: string, chunks: seq<string>)
    decreases |chunks|
  {
    chunks != [] ==> Aligned(a) && CutAfterLines(a + chunks[0], chunks[1..])
  }

  lemma {:induction false} AlignedChunks(a: string, chunks: seq<string>)
    requires Aligned(a) && forall i | 0 <= i < |chunks| - 1 :: Aligned(chunks[i])
    ensures CutAfterLines(a, chunks)
    decreases |chunks|
  {
    if |chunks| == 1 {
      assert chunks[1..] == [];
    } else if |chunks| > 1 {
      assert Aligned(chunks[0]);
      assert Aligned(a + chunks[0]);
      forall i | 0 <= i < |chunks[1..]| - 1 ensures Aligned(chunks[1..][i]) {
        assert chunks[1..][i] == chunks[i + 1];
      }
      AlignedChunks(a + chunks[0], chunks[1..]);
    }
  }

  lemma ConcatNext(a: string, chunks: seq<string>)
    requires chunks != []
    ensures a + Concat(chunks) == (a + chunks[0]) + Concat(chunks[1..]) == a + (chunks[0] + Concat(chunks[1..]))
  {
  }

  lemma {:induction false} ResumeChunks(a: string, chunks: seq<string>)
    requires CutAfterLines(a, chunks) && CrOnlyBeforeLf(a + Concat(chunks))
    ensures Continues(Parse(a), ReceiveAll(Parse(a).rest, chunks), Parse(a + Concat(chunks)))
    decreases |chunks|
  {
    var p := Parse(a);
    if chunks == [] {
      assert a + Concat(chunks) == a;
      assert p.messages + [] == p.messages;
    } else if ReceiveAll(p.rest, chunks).Some? {
      var c, cs := chunks[0], chunks[1..];
      ConcatNext(a, chunks);
      ReceiveCons(p.rest, chunks);
      ResumeChunk(a, c, Concat(cs));
      ResumeChunks(a + c, cs);
      ContinuesCons(p, Parse(p.rest + c), ReceiveAll(Parse(p.rest + c).rest, cs), Parse(a + Concat(chunks)));
    }
  }

  lemma NoStrayCrInPrefix(a: string, b: string)
    requires Aligned(a) && CrOnlyBeforeLf(a + b)
    ensures !HasCrLf(Parse(a).rest)
  {
    forall i | 0 <= i < |a| && a[i] == '\r' ensures i + 1 < |a| && a[i + 1] == '\n' {
      assert (a + b)[i] == '\r' && (a + b)[i + 1] == '\n';
    }
    NoCrInRest(a);
  }

  lemma NoCrInRest(a: string)
    requires CrOnlyBeforeLf(a)
    ensures !HasCrLf(Parse(a).rest)
  {
    LinesClean(a);
    OpenLines(a);
    var o := FeedAll(START, Lines(a)).open;
    RestIsUnlines(o);
    assert AllOneLine(o);
    forall l | l in o ensures StripCR(l) == l {
      assert '\r' !in l;
    }
    CrLfInUnlines(o);
  }

  // ---------------------------------------------------------------- memory

  lemma {:induction false} UnlinesConcat(a: seq<string>, b: seq<string>)
    ensures |Unlines(a + b, LF)| == |Unlines(a, LF)| + |Unlines(b, LF)|
    decreases |a|
  {
    if a == [] {
      assert a + b == b;
    } else {
      assert (a + b)[1..] == a[1..] + b;
      UnlinesConcat(a[1..], b);
    }
  }

  lemma {:induction false} LinesAreNotLonger(text: string)
    ensures |Unlines(Lines(text), LF)| <= |text| + 1
    decreases |text|
  {
    var i := LineEnd(text);
    if i == |text| {
      LinesOfOneLine(text);
      assert [text][1..] == [];
    } else {
      var line, tail := text[..i], text[i + 1..];
      assert text == line + LF + tail;
      LinesCons(line, tail);
      LinesAreNotLonger(tail);
      assert [StripCR(line)][1..] == [];
      assert [] + Lines(tail) == Lines(tail);
      UnlinesConcat([StripCR(line)], Lines(tail));
    }
  }

  /** A remainder can be one character longer than the text it is taken from, never more. */
  lemma RestIsNotLonger(text: string)
    ensures |Parse(text).rest| <= |text| + 1
  {
    var items := ScanIsGrammatical(Lines(text));
    var o := FeedAll(START, Lines(text)).open;
    RestIsUnlines(o);
    UnlinesConcat(Flatten(items), o);
    LinesAreNotLonger(text);
  }

  /** Whatever a server sends, the stored remainder stays within the limit plus one character. */
  lemma {:induction false} PartialIsBounded(partial: string, chunks: seq<string>)
    requires |partial| <= MAX_CONTROL_RESPONSE_LENGTH + 1
    ensures var r := ReceiveAll(partial, chunks);
            r.Some? ==> |r.value.rest| <= MAX_CONTROL_RESPONSE_LENGTH + 1
    decreases |chunks|
  {
    if chunks != [] && Receive(partial, chunks[0]).Some? {
      RestIsNotLonger(partial + chunks[0]);
      PartialIsBounded(Parse(partial + chunks[0]).rest, chunks[1..]);
    }
  }

  /** The bound is attained, by a group opener of exactly the accepted size; then every next
      chunk trips the guard. */
  lemma BoundIsAttained(next: string)
    ensures var text := "200-" + seq(MAX_CONTROL_RESPONSE_LENGTH - 4, _ => 'x');
            && Receive("", text) == Some(Parsed([], text + LF))
            && |text + LF| == MAX_CONTROL_RESPONSE_LENGTH + 1
            && Receive(text + LF, next) == None
  {
    var text := "200-" + seq(MAX_CONTROL_RESPONSE_LENGTH - 4, _ => 'x');
    assert "" + text == text;
    assert OneLine(text) && !IsBlank(text) by { assert !IsSpace(text[0]); }
    LinesOfOneLine(text);
    FeedOne(START, text);
    assert Join([text]) == text;
  }
}
