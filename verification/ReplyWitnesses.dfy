/** Streams that are parsed differently when they are cut and resumed. */
module ReplyWitnesses {
  import opened ReplyParser
  import opened ReplyStream

  /** A reply cut in two pieces that are no replies by themselves is lost. */
  lemma CutReplyIsLost(a: string, b: string)
    requires OneLine(a) && OneLine(b) && a != "" && b != "" && !IsSpace(a[0]) && !IsSpace(b[0])
    requires WellFormed(Noise(a)) && WellFormed(Noise(b)) && IsSingleLine(a + b)
    ensures Parse(a + b + CRLF) == Parsed([a + b], "") && Resume(a, b + CRLF) == Parsed([], "")
  {
    var whole := a + b;
    assert whole[0] == a[0] && OneLine(whole);
    PrintOne(Reply([whole]), whole);
    PrintOne(Noise(b), b);
    NoiseIsForgotten(a);
    Resumed(a, b + CRLF, "");
  }

  lemma NoiseIsForgotten(a: string)
    requires OneLine(a) && a != "" && !IsSpace(a[0]) && WellFormed(Noise(a))
    ensures Parse(a) == Parsed([], "")
  {
    LinesOfOneLine(a);
    FeedOne(START, a);
  }

  lemma Resumed(a: string, b: string, rest: string)
    requires Parse(a) == Parsed([], rest)
    ensures Resume(a, b) == Parse(rest + b)
    ensures rest == "" ==> Resume(a, b) == Parse(b)
  {
    assert [] + Parse(rest + b).messages == Parse(rest + b).messages;
    assert "" + b == b;
  }

  /** "20" and "0 OK" are such pieces. */
  lemma SplitReplyIsLost(a: string, b: string)
    requires a == "20" && b == "0 OK"
    ensures Parse(a + b + CRLF) == Parsed(["200 OK"], "") && Resume(a, b + CRLF) == Parsed([], "")
  {
    assert a + b == "200 OK";
    CutReplyIsLost(a, b);
  }

  lemma PrintOne(item: Item, line: string)
    requires WellFormed(item) && ItemLines(item) == [line] && OneLine(line) && line != "" && !IsSpace(line[0])
    ensures Parse(line + CRLF) == Parsed(Messages([item]), "")
    ensures Messages([item]) == if item.Reply? then [line] else []
  {
    assert [item][1..] == [] && Flatten([item]) + [] == [line];
    PrintParseRoundTrip([item], []);
    assert [line][1..] == [] && line + CRLF + "" == line + CRLF;
  }

  lemma PrintedLine(a: string, eol: string)
    ensures Unlines([a], eol) == a + eol
  {
    assert [a][1..] == [] && a + eol + "" == a + eol;
  }

  lemma PrintTwo(a: string, b: string)
    ensures Unlines([a, b], CRLF) == a + CRLF + (b + CRLF) && Join([a, b]) == a + LF + b
  {
    assert [a, b][1..] == [b];
    PrintedLine(b, CRLF);
  }

  /** Parsing a printed reply of two lines. */
  lemma TwoLineReply(a: string, b: string)
    requires OneLine(a) && OneLine(b) && IsMultiline(a) && Closes(b, Token(a))
    ensures Parse(a + CRLF + (b + CRLF)) == Parsed([a + LF + b], "")
  {
    var item := Reply([a, b]);
    assert [a, b][..1] == [a];
    assert [item][1..] == [] && Flatten([item]) + [] == [a, b];
    assert !IsSpace(a[0]) && !IsSpace(b[0]);
    assert !IsBlank(a) && !IsBlank(b);
    PrintParseRoundTrip([item], []);
    PrintTwo(a, b);
    assert Messages([item]) == [Join([a, b])];
  }

  lemma OpenerStays(a: string)
    requires OneLine(a) && IsMultiline(a)
    ensures Parse(a + CRLF) == Parsed([], a + LF)
  {
    assert !IsBlank(a) by { assert !IsSpace(a[0]); }
    assert Flatten([]) + [a] == [a];
    PrintParseRoundTrip([], [a]);
    PrintedLine(a, CRLF);
    PrintedLine(a, LF);
  }

  /** A group whose lines end in CR CR LF: the reply arrives, but resumed it has another text. */
  lemma StrayCrChangesText(opener: string, closer: string)
    requires OneLine(opener) && OneLine(closer) && IsMultiline(opener) && Closes(closer, Token(opener))
    requires opener[|opener| - 1] != '\r'
    ensures var a, b := opener + "\r" + CRLF, closer + CRLF;
            && Parse(a) == Parsed([], opener + CRLF)
            && Parse(a + b) == Parsed([opener + CRLF + closer], "")
            && Resume(a, b) == Parsed([opener + LF + closer], "")
  {
    var withCr := opener + "\r";
    assert OneLine(withCr) && IsMultiline(withCr) && Token(withCr) == Token(opener);
    assert withCr + LF == opener + CRLF;
    OpenerStays(withCr);
    TwoLineReply(withCr, closer);
    TwoLineReply(opener, closer);
    assert withCr + LF + closer == opener + CRLF + closer;
    Resumed(withCr + CRLF, closer + CRLF, opener + CRLF);
  }

  /** A group with a line of just the code and CR CR LF: resumed, it ends at that line, and what ended it
      before is taken for a reply of its own. */
  lemma StrayCrChangesEnd(opener: string, code: string, closer: string)
    requires OneLine(opener) && OneLine(code) && OneLine(closer) && IsMultiline(opener)
    requires opener[|opener| - 1] != '\r' && code == Token(opener) && Closes(closer, code) && |closer| > 3
    ensures var a, b := opener + CRLF + (code + "\r" + CRLF), closer + CRLF;
            |Parse(a + b).messages| == 1 && |Resume(a, b).messages| == 2
  {
    var withCr := code + "\r";
    CodeWithCr(code, withCr);
    TwoStay(opener, withCr);
    var a, b, rest := opener + CRLF + (withCr + CRLF), closer + CRLF, opener + LF + (withCr + LF);
    WholeGroup(opener, withCr, closer, a + b);
    Regroup(opener, code + CRLF, b);
    ResumedGroup(opener, code, closer, rest + b);
    Resumed(a, b, rest);
  }

  lemma CodeWithCr(code: string, withCr: string)
    requires HasCode(code) && |code| == 3 && OneLine(code) && withCr == code + "\r"
    ensures OneLine(withCr) && !Closes(withCr, code) && !IsSpace(withCr[0]) && withCr + LF == code + CRLF
  {
    assert withCr[3] == '\r';
  }

  lemma Regroup(opener: string, line: string, b: string)
    ensures opener + LF + line + b == opener + LF + (line + b)
  {
  }

  /** "200-x", "200" and "200 ok" are such lines. */
  lemma GroupsWithStrayCr(opener: string, code: string, closer: string)
    requires opener == "200-x" && code == "200" && closer == "200 ok"
    ensures OneLine(opener) && OneLine(code) && OneLine(closer) && IsMultiline(opener)
    ensures opener[|opener| - 1] != '\r' && code == Token(opener) && Closes(closer, code) && |closer| > 3
  {
  }

  lemma TwoStay(opener: string, line: string)
    requires OneLine(opener) && OneLine(line) && line != "" && !IsSpace(line[0])
    requires IsMultiline(opener) && !Closes(line, Token(opener))
    ensures Parse(opener + CRLF + (line + CRLF)) == Parsed([], opener + LF + (line + LF))
  {
    var group := [opener, line];
    assert group[1..] == [line] && Flatten([]) + group == group;
    assert !IsSpace(opener[0]);
    PrintTwo(opener, line);
    PrintParseRoundTrip([], group);
    PrintedLine(line, LF);
  }

  lemma WholeGroup(opener: string, code: string, closer: string, text: string)
    requires OneLine(opener) && OneLine(code) && OneLine(closer) && code != "" && !IsSpace(code[0])
    requires IsMultiline(opener) && !Closes(code, Token(opener)) && Closes(closer, Token(opener))
    requires text == opener + CRLF + (code + CRLF) + (closer + CRLF)
    ensures |Parse(text).messages| == 1
  {
    var ls := [opener, code, closer];
    var items := [Reply(ls)];
    assert ls[..2] == [opener, code] && ls[1..] == [code, closer];
    assert items[1..] == [] && Flatten(items) + [] == ls;
    assert !IsSpace(opener[0]) && !IsSpace(closer[0]);
    PrintTwo(code, closer);
    assert Unlines(ls, CRLF) == text;
    PrintParseRoundTrip(items, []);
  }

  lemma ResumedGroup(opener: string, code: string, closer: string, text: string)
    requires OneLine(opener) && OneLine(code) && OneLine(closer)
    requires IsMultiline(opener) && opener[|opener| - 1] != '\r'
    requires Closes(code, Token(opener)) && IsSingleLine(closer)
    requires text == opener + LF + ((code + CRLF) + (closer + CRLF))
    ensures |Parse(text).messages| == 2
  {
    var more := (code + CRLF) + (closer + CRLF);
    TwoReplies(opener, code, closer, opener + CRLF + more);
    SameLines(opener, more);
    SameParse(text, opener + CRLF + more);
  }

  lemma SameParse(a: string, b: string)
    requires Lines(a) == Lines(b)
    ensures Parse(a) == Parse(b)
  {
  }

  lemma TwoReplies(opener: string, code: string, closer: string, text: string)
    requires OneLine(opener) && OneLine(code) && OneLine(closer)
    requires IsMultiline(opener) && Closes(code, Token(opener)) && IsSingleLine(closer)
    requires text == opener + CRLF + ((code + CRLF) + (closer + CRLF))
    ensures |Parse(text).messages| == 2
  {
    var first, second := Reply([opener, code]), Reply([closer]);
    var items := [first, second];
    assert [opener, code][..1] == [opener];
    assert AllWellFormed(items);
    LinesOfTwo(first, second);
    assert !IsSpace(opener[0]) && !IsSpace(code[0]) && !IsSpace(closer[0]);
    var ls := [opener, code] + [closer];
    assert ls == [opener, code, closer] && ls[1..] == [code, closer];
    PrintTwo(code, closer);
    assert Unlines(ls, CRLF) == text;
    assert ls + [] == ls;
    PrintParseRoundTrip(items, []);
  }

  lemma LinesOfTwo(first: Item, second: Item)
    ensures Flatten([first, second]) == ItemLines(first) + ItemLines(second)
    ensures first.Reply? && second.Reply? ==> |Messages([first, second])| == 2
  {
    assert [] + [first] == [first] && [first] + [second] == [first, second];
    FlattenSnoc([], first);
    FlattenSnoc([first], second);
    assert [first][1..] == [] && [second][1..] == [];
    assert [] + ItemLines(first) == ItemLines(first);
  }

  lemma SameLines(line: string, more: string)
    requires OneLine(line) && (line == "" || line[|line| - 1] != '\r')
    ensures Lines(line + LF + more) == Lines(line + CRLF + more)
  {
    var withCr := line + "\r";
    assert OneLine(withCr);
    LinesCons(line, more);
    LinesCons(withCr, more);
    assert line + CRLF == withCr + LF;
    StripKeepsBlank(withCr);
    assert StripCR(withCr) == line && StripCR(line) == line;
  }
}
