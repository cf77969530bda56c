/** Model of src/parseControlResponse.ts: the incremental parser of control replies.

    A `char` stands for one UTF-16 code unit.  `Parse` specifies the loop of
    `ParseControlResponse`; the lemmas relate it to a grammar of replies and say at which
    cuts of the byte stream the stored remainder may be parsed again. */
module ReplyParser {

  /** Largest accepted length of remainder plus chunk, src/FtpContext.ts:48. */
  const MAX_CONTROL_RESPONSE_LENGTH := 0x1_0000

  const LF := "\n"
  const CRLF := "\r\n"

  datatype Parsed = Parsed(messages: seq<string>, rest: string)

  /** The characters removed by String.prototype.trim. */
  predicate IsSpace(c: char) {
    || '\U{0009}' <= c <= '\U{000D}' || c == ' ' || c == '\U{00A0}' || c == '\U{1680}'
    || '\U{2000}' <= c <= '\U{200A}' || c == '\U{2028}' || c == '\U{2029}'
    || c == '\U{202F}' || c == '\U{205F}' || c == '\U{3000}' || c == '\U{FEFF}'
  }

  predicate IsBlank(s: string) {
    forall i | 0 <= i < |s| :: IsSpace(s[i])
  }

  predicate IsDigit(c: char) {
    '0' <= c <= '9'
  }

  predicate HasCode(line: string) {
    |line| >= 3 && IsDigit(line[0]) && IsDigit(line[1]) && IsDigit(line[2])
  }

  predicate IsSingleLine(line: string) {
    HasCode(line) && (|line| == 3 || line[3] == ' ')
  }

  predicate IsMultiline(line: string) {
    HasCode(line) && |line| > 3 && line[3] == '-'
  }

  /** `line.substr(0, 3)` */
  function Token(line: string): string {
    if |line| < 3 then line else line[..3]
  }

  /** The test of the regular expression built from an opening token. */
  predicate Closes(line: string, token: string) {
    |line| >= 3 && line[..3] == token && (|line| == 3 || line[3] == ' ')
  }

  // ---------------------------------------------------------------- lines

  /** Position of the first LF, or |text| if there is none. */
  function LineEnd(text: string): (i: nat)
    ensures i <= |text|
    ensures forall j | 0 <= j < i :: text[j] != '\n'
    ensures i < |text| ==> text[i] == '\n'
  {
    if text == "" || text[0] == '\n' then 0 else 1 + LineEnd(text[1..])
  }

  function StripCR(line: string): string {
    if line != "" && line[|line| - 1] == '\r' then line[..|line| - 1] else line
  }

  /** `text.split(/\r?\n/)` */
  function Split(text: string): (lines: seq<string>)
    ensures |lines| > 0
    decreases |text|
  {
    var i := LineEnd(text);
    if i == |text| then [text] else [StripCR(text[..i])] + Split(text[i + 1..])
  }

  /** `lines.filter(isNotBlank)` */
  function NonBlank(lines: seq<string>): seq<string> {
    if lines == [] then []
    else (if IsBlank(lines[0]) then [] else [lines[0]]) + NonBlank(lines[1..])
  }

  function Lines(text: string): seq<string> {
    NonBlank(Split(text))
  }

  /** `lines.join(LF)` */
  function Join(lines: seq<string>): string {
    if lines == [] then ""
    else if |lines| == 1 then lines[0]
    else lines[0] + LF + Join(lines[1..])
  }

  // ---------------------------------------------------------------- the automaton

  /** Messages found so far and the lines of the group that is still open, if any. */
  datatype Scan = Scan(messages: seq<string>, open: seq<string>)

  const START := Scan([], [])

  function Feed(s: Scan, line: string): Scan {
    if s.open == [] then
      if IsMultiline(line) then s.(open := [line])
      else if IsSingleLine(line) then s.(messages := s.messages + [line])
      else s
    else if Closes(line, Token(s.open[0])) then Scan(s.messages + [Join(s.open + [line])], [])
    else s.(open := s.open + [line])
  }

  function FeedAll(s: Scan, lines: seq<string>): Scan
    decreases |lines|
  {
    if lines == [] then s else FeedAll(Feed(s, lines[0]), lines[1..])
  }

  function RestOf(open: seq<string>): string {
    if open == [] then "" else Join(open) + LF
  }

  function Parse(text: string): Parsed {
    var s := FeedAll(START, Lines(text));
    Parsed(s.messages, RestOf(s.open))
  }

  datatype Option<+T> = None | Some(value: T)

  /** The loop of the source, with its own variables. */
  method ParseControlResponse(text: string) returns (messages: seq<string>, rest: string)
    ensures Parsed(messages, rest) == Parse(text)
  {
    var lines := Lines(text);
    messages := [];
    var startAt := 0;
    var token: Option<string> := None;
    var i := 0;
    while i < |lines|
      invariant 0 <= i <= |lines|
      invariant 0 <= startAt <= i
      invariant token.Some? ==> startAt < i && token.value == Token(lines[startAt])
      invariant FeedAll(START, lines[..i]) == Scan(messages, if token.Some? then lines[startAt..i] else [])
    {
      var line := lines[i];
      FeedNext(lines, i);
      SliceGrows(lines, startAt, i);
      SliceGrows(lines, i, i);
      if token == None {
        if IsMultiline(line) {
          token := Some(Token(line));
          startAt := i;
        } else if IsSingleLine(line) {
          messages := messages + [line];
        }
      } else {
        if Closes(line, token.value) {
          token := None;
          messages := messages + [Join(lines[startAt..i + 1])];
        }
      }
      i := i + 1;
    }
    assert lines[..i] == lines;
    assert token.Some? ==> lines[startAt..i] == lines[startAt..];
    rest := if token.Some? then Join(lines[startAt..]) + LF else "";
  }

  lemma {:induction false} FeedConcat(s: Scan, a: seq<string>, b: seq<string>)
    ensures FeedAll(s, a + b) == FeedAll(FeedAll(s, a), b)
    decreases |a|
  {
    if a == [] {
      assert a + b == b;
    } else {
      assert (a + b)[1..] == a[1..] + b;
      FeedConcat(Feed(s, a[0]), a[1..], b);
    }
  }

  lemma FeedSnoc(s: Scan, a: seq<string>, line: string)
    ensures FeedAll(s, a + [line]) == Feed(FeedAll(s, a), line)
  {
    FeedConcat(s, a, [line]);
    assert [line][1..] == [];
    assert FeedAll(Feed(FeedAll(s, a), line), []) == Feed(FeedAll(s, a), line);
  }

  lemma SliceGrows(lines: seq<string>, from: nat, i: nat)
    requires from <= i < |lines|
    ensures lines[from..i + 1] == lines[from..i] + [lines[i]]
  {
  }

  lemma FeedNext(lines: seq<string>, i: nat)
    requires i < |lines|
    ensures FeedAll(START, lines[..i + 1]) == Feed(FeedAll(START, lines[..i]), lines[i])
  {
    assert lines[..i + 1] == lines[..i] + [lines[i]];
    FeedSnoc(START, lines[..i], lines[i]);
  }

  // ---------------------------------------------------------------- grammar of replies

  /** A control stream is a list of replies and of noise: lines outside any reply. */
  datatype Item = Noise(line: string) | Reply(lines: seq<string>)

  predicate Unclosed(group: seq<string>) {
    && group != []
    && IsMultiline(group[0])
    && forall i | 0 < i < |group| :: !Closes(group[i], Token(group[0]))
  }

  /** Section 4.2 of RFC 959: one line, or a group closed by the first line that repeats its code. */
  predicate WellFormed(item: Item) {
    match item
    case Noise(line) => !IsSingleLine(line) && !IsMultiline(line)
    case Reply(ls) =>
      || (|ls| == 1 && IsSingleLine(ls[0]))
      || (|ls| >= 2 && Unclosed(ls[..|ls| - 1]) && Closes(ls[|ls| - 1], Token(ls[0])))
  }

  predicate AllWellFormed(items: seq<Item>) {
    forall i | 0 <= i < |items| :: WellFormed(items[i])
  }

  function ItemLines(item: Item): seq<string> {
    match item case Noise(line) => [line] case Reply(ls) => ls
  }

  function Flatten(items: seq<Item>): seq<string> {
    if items == [] then [] else ItemLines(items[0]) + Flatten(items[1..])
  }

  /** The replies in order, each as the text handed to a response handler. */
  function Messages(items: seq<Item>): seq<string> {
    if items == [] then []
    else (match items[0] case Noise(_) => [] case Reply(ls) => [Join(ls)]) + Messages(items[1..])
  }

  lemma {:induction false} FeedGroup(s: Scan, group: seq<string>)
    requires s.open == [] && Unclosed(group)
    ensures FeedAll(s, group) == s.(open := group)
    decreases |group|
  {
    var n := |group| - 1;
    assert group == group[..n] + [group[n]];
    FeedSnoc(s, group[..n], group[n]);
    if n > 0 {
      FeedGroup(s, group[..n]);
    }
  }

  lemma FeedItem(s: Scan, item: Item)
    requires s.open == [] && WellFormed(item)
    ensures FeedAll(s, ItemLines(item)) == Scan(s.messages + Messages([item]), [])
  {
    assert [item][1..] == [];
    match item
    case Noise(line) =>
      FeedSnoc(s, [], line);
      assert [] + [line] == [line];
    case Reply(ls) =>
      var n := |ls| - 1;
      assert ls == ls[..n] + [ls[n]];
      FeedSnoc(s, ls[..n], ls[n]);
      if |ls| > 1 {
        FeedGroup(s, ls[..n]);
      }
  }

  lemma FeedItemThen(s: Scan, item: Item, more: seq<string>)
    requires s.open == [] && WellFormed(item)
    ensures FeedAll(s, ItemLines(item) + more) == FeedAll(Scan(s.messages + Messages([item]), []), more)
  {
    FeedConcat(s, ItemLines(item), more);
    FeedItem(s, item);
  }

  lemma ConcatAssociates(a: seq<string>, b: seq<string>, c: seq<string>)
    ensures (a + b) + c == a + (b + c)
  {
  }

  lemma {:induction false} FlattenSplit(items: seq<Item>, open: seq<string>)
    requires items != []
    ensures Flatten(items) + open == ItemLines(items[0]) + (Flatten(items[1..]) + open)
    ensures Messages(items) == Messages([items[0]]) + Messages(items[1..])
  {
    assert [items[0]][1..] == [];
  }

  /** Completeness: every stream of well-formed items is read back, an unclosed group stays open. */
  lemma {:induction false} ScanReadsItems(s: Scan, items: seq<Item>, open: seq<string>)
    requires s.open == [] && AllWellFormed(items)
    requires open == [] || Unclosed(open)
    ensures FeedAll(s, Flatten(items) + open) == Scan(s.messages + Messages(items), open)
    decreases |items|
  {
    if items == [] {
      assert Flatten(items) + open == open;
      if open != [] {
        FeedGroup(s, open);
      }
    } else {
      var s1 := Scan(s.messages + Messages([items[0]]), []);
      FlattenSplit(items, open);
      FeedItemThen(s, items[0], Flatten(items[1..]) + open);
      ScanReadsItems(s1, items[1..], open);
      ConcatAssociates(s.messages, Messages([items[0]]), Messages(items[1..]));
    }
  }

  lemma {:induction false} FlattenSnoc(items: seq<Item>, item: Item)
    ensures Flatten(items + [item]) == Flatten(items) + ItemLines(item)
    ensures Messages(items + [item]) == Messages(items) + Messages([item])
    decreases |items|
  {
    assert [item][1..] == [];
    if items == [] {
      assert items + [item] == [item];
    } else {
      assert (items + [item])[1..] == items[1..] + [item];
      FlattenSnoc(items[1..], item);
    }
  }

  /** The item that a line ends when no group stays open after it. */
  function EndedItem(s: Scan, line: string): (item: Item)
    requires s.open == [] || Unclosed(s.open)
    requires Feed(s, line).open == []
    ensures WellFormed(item) && s.open + [line] == ItemLines(item)
    ensures Feed(s, line).messages == s.messages + Messages([item])
  {
    var ls := s.open + [line];
    assert ls[..|ls| - 1] == s.open;
    var item := if s.open == [] && !IsSingleLine(line) then Noise(line) else Reply(ls);
    assert [item][1..] == [];
    item
  }

  /** The lines read so far are the replies found, noise, and the open group. */
  ghost predicate Reads(s: Scan, lines: seq<string>, items: seq<Item>) {
    && AllWellFormed(items) && lines == Flatten(items) + s.open && s.messages == Messages(items)
    && (s.open == [] || Unclosed(s.open))
  }

  lemma ReadsLine(s: Scan, lines: seq<string>, items: seq<Item>, line: string) returns (items': seq<Item>)
    requires Reads(s, lines, items)
    ensures Reads(Feed(s, line), lines + [line], items')
  {
    ConcatAssociates(Flatten(items), s.open, [line]);
    if Feed(s, line).open == [] {
      var item := EndedItem(s, line);
      items' := items + [item];
      FlattenSnoc(items, item);
      assert lines + [line] == Flatten(items') + [];
    } else {
      items' := items;
    }
  }

  /** Soundness and conservation: whatever the lines are, they are in order exactly the parsed
      replies, noise between them, and the open group. */
  lemma {:induction false} ScanIsGrammatical(lines: seq<string>) returns (items: seq<Item>)
    ensures AllWellFormed(items)
    ensures var s := FeedAll(START, lines);
            && lines == Flatten(items) + s.open
            && s.messages == Messages(items)
            && (s.open == [] || Unclosed(s.open))
    decreases |lines|
  {
    items := [];
    if lines != [] {
      var n := |lines| - 1;
      assert lines == lines[..n] + [lines[n]];
      var before := ScanIsGrammatical(lines[..n]);
      FeedSnoc(START, lines[..n], lines[n]);
      items := ReadsLine(FeedAll(START, lines[..n]), lines[..n], before, lines[n]);
    }
  }
}
