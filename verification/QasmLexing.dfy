/** Splitting a printed text gives back the printed statements. */
module QasmLexing {
  import opened Options
  import opened Text
  import opened QasmPrinter
  import opened QasmParser

  predicate BodyChar(c: char) { c != '\n' && c != '\r' && c != '/' }

  /** A statement that survives comment stripping, line splitting and trimming. */
  predicate Clean(body: string) {
    Tight(body) && All(body, BodyChar)
  }

  predicate AllClean(bodies: seq<string>) {
    forall k :: 0 <= k < |bodies| ==> Clean(bodies[k])
  }

  lemma {:induction false} StripNothing(s: string)
    requires '/' !in s
    ensures StripComment(s) == s
  {
    if |s| >= 2 {
      assert s[0] in s && s == [s[0]] + s[1..];
      StripNothing(s[1..]);
    }
  }

  lemma LineOf(body: string)
    requires Clean(body)
    ensures LineStatement(body + ";") == Success(Option.Some(body))
    ensures DropReturn(body + ";") == body + ";"
    ensures '\n' !in body + ";"
  {
    hide StripComment, Trim, IsSpace;
    var line := body + ";";
    assert line[..|line| - 1] == body;
    assert !IsSpace(';') by { SemicolonIsNoSpace(); }
    StripNothing(line);
    TrimTight(line);
    TrimTight(body);
  }

  lemma SemicolonIsNoSpace()
    ensures !IsSpace(';')
  {}

  lemma BlankLine()
    ensures LineStatement("") == Success(Option.None)
  {
    assert StripComment("") == "";
    assert TrimStart("") == "";
    assert TrimEnd("") == "";
  }

  lemma {:induction false} LinesOf(bodies: seq<string>)
    requires AllClean(bodies)
    ensures LineStatements(Terminated(bodies) + [""]) == Success(bodies)
  {
    hide LineStatement, Clean;
    var lines := Terminated(bodies) + [""];
    if bodies == [] {
      BlankLine();
      assert lines[1..] == [] && Optional(Option.None) + [] == [];
    } else {
      LineOf(bodies[0]);
      assert lines[0] == bodies[0] + ";" && lines[1..] == Terminated(bodies[1..]) + [""];
      LinesOf(bodies[1..]);
      assert [bodies[0]] + bodies[1..] == bodies;
    }
  }

  lemma {:induction false} SplitText(bodies: seq<string>)
    requires bodies != [] && AllClean(bodies)
    ensures Split(TextOf(bodies), '\n') == Terminated(bodies) + [""]
  {
    hide Clean, Split;
    var first := bodies[0] + ";";
    LineOf(bodies[0]);
    if |bodies| == 1 {
      assert Terminated(bodies) == [first];
      assert TextOf(bodies) == first + ['\n'] + "";
      SplitFirst(first, "", '\n');
      NothingToSplit();
    } else {
      var rest := bodies[1..];
      SplitText(rest);
      assert Terminated(bodies)[1..] == Terminated(rest);
      assert TextOf(bodies) == first + ['\n'] + TextOf(rest);
      SplitFirst(first, TextOf(rest), '\n');
      ConcatAssociates([first], Terminated(rest), [""]);
    }
  }

  lemma NothingToSplit()
    ensures Split("", '\n') == [""]
  {}

  /** What the printer joins, the line splitter separates again. */
  lemma TextStatements(bodies: seq<string>)
    requires bodies != [] && AllClean(bodies)
    ensures LineStatements(SplitLines(TextOf(bodies))) == Success(bodies)
  {
    hide LineStatements, Clean, Split, TextOf, DropReturn;
    var parts := Split(TextOf(bodies), '\n');
    SplitText(bodies);
    var lines := Terminated(bodies);
    assert parts[..|parts| - 1] == lines && parts[|parts| - 1] == "";
    forall k | 0 <= k < |lines| ensures DropReturns(lines)[k] == lines[k] { LineOf(bodies[k]); }
    assert DropReturns(lines) == lines;
    LinesOf(bodies);
  }

  // ----- lines as people write them

  predicate Spaces(s: string) { All(s, IsSpace) }

  lemma {:induction false} TrimBehind(s: string, after: string)
    requires Tight(s) && Spaces(after)
    ensures TrimEnd(s + after) == s
  {
    if after == [] {
      assert s + after == s;
    } else {
      var m := |after| - 1;
      assert after[m] in after && forall c :: c in after[..m] ==> c in after;
      assert (s + after)[|s| + m] == after[m] && (s + after)[..|s| + m] == s + after[..m];
      TrimBehind(s, after[..m]);
    }
  }

  lemma TrimAround(before: string, s: string, after: string)
    requires Tight(s) && Spaces(before) && Spaces(after)
    ensures Trim(before + s + after) == s
  {
    assert before + s + after == before + (s + after) && (s + after)[0] == s[0];
    CountWhileStops(before, s + after, IsSpace);
    assert (before + (s + after))[|before|..] == s + after;
    TrimBehind(s, after);
  }

  lemma {:induction false} TrimAllSpaces(s: string)
    requires Spaces(s)
    ensures Trim(s) == ""
  {
    assert CountWhile(s + "", IsSpace) == |s| by { CountWhileStops(s, "", IsSpace); }
    assert s + "" == s && s[|s|..] == "";
  }

  lemma {:induction false} StripTail(s: string, comment: string)
    requires '/' !in s
    ensures StripComment(s + "//" + comment) == s
  {
    var t := s + "//" + comment;
    if s == "" {
      assert t[0] == '/' && t[1] == '/';
    } else {
      assert t[0] == s[0] && s[0] in s && t[1..] == s[1..] + "//" + comment && s == [s[0]] + s[1..];
      StripTail(s[1..], comment);
    }
  }

  /** A comment begins here. */
  predicate CommentAt(s: string, i: nat) {
    i + 1 < |s| && s[i] == '/' && s[i + 1] == '/'
  }

  /** A line is cut at its first two slashes in a row. */
  lemma {:induction false} CommentExactly(s: string)
    ensures StripComment(s) <= s && (|StripComment(s)| < |s| ==> CommentAt(s, |StripComment(s)|))
    ensures forall i :: 0 <= i < |StripComment(s)| ==> !CommentAt(s, i)
  {
    if |s| >= 2 && !CommentAt(s, 0) {
      var t := s[1..];
      CommentExactly(t);
      assert s == [s[0]] + t && StripComment(s) == [s[0]] + StripComment(t);
      forall i | 0 <= i < |StripComment(s)| ensures !CommentAt(s, i) {
        assert i > 0 ==> !CommentAt(t, i - 1);
      }
      if |StripComment(s)| < |s| {
        assert CommentAt(t, |StripComment(t)|);
      }
    }
  }

  lemma SpacesHaveNoSlash(s: string)
    requires Spaces(s)
    ensures '/' !in s
  {}

  lemma Stripped(before: string, s: string, after: string, comment: string)
    requires '/' !in s && Spaces(before) && Spaces(after)
    ensures StripComment(before + s + after + "//" + comment) == before + s + after
    ensures StripComment(before + s + after) == before + s + after
  {
    SpacesHaveNoSlash(before);
    SpacesHaveNoSlash(after);
    StripTail(before + s + after, comment);
    StripNothing(before + s + after);
  }

  /** A statement may be indented, spaces may surround its semicolon, and a comment may follow. */
  lemma StatementLine(before: string, body: string, middle: string, after: string, comment: string)
    requires Clean(body) && Spaces(before) && Spaces(middle) && Spaces(after)
    ensures var line := before + (body + middle + ";") + after;
      LineStatement(line + "//" + comment) == LineStatement(line) == Success(Option.Some(body))
  {
    hide StripComment, Trim, IsSpace, Spaces;
    var s := body + middle + ";";
    assert '/' !in s by { SpacesHaveNoSlash(middle); }
    Stripped(before, s, after, comment);
    assert !IsSpace(';') by { SemicolonIsNoSpace(); }
    TrimAround(before, s, after);
    assert s[..|s| - 1] == "" + body + middle;
    assert Spaces("") by { NoSpaces(); }
    TrimAround("", body, middle);
  }

  lemma NoSpaces()
    ensures Spaces("")
  {}

  /** A line without a final semicolon is an error. */
  lemma UnterminatedLine(before: string, body: string, after: string, comment: string)
    requires Clean(body) && body[|body| - 1] != ';' && Spaces(before) && Spaces(after)
    ensures var line := before + body + after;
      LineStatement(line + "//" + comment) == LineStatement(line) == Failure(InvalidSyntax)
  {
    hide StripComment, Trim, IsSpace, Spaces;
    Stripped(before, body, after, comment);
    TrimAround(before, body, after);
  }

  /** So is a semicolon alone; a blank line, or one that holds only a comment, is no statement. */
  lemma LineWithoutStatement(before: string, after: string, comment: string)
    requires Spaces(before) && Spaces(after)
    ensures var line := before + ";" + after;
      LineStatement(line + "//" + comment) == LineStatement(line) == Failure(InvalidSyntax)
    ensures LineStatement(before + "//" + comment) == LineStatement(before) == Success(Option.None)
  {
    hide StripComment, Trim, IsSpace, Spaces;
    Stripped(before, ";", after, comment);
    assert !IsSpace(';') by { SemicolonIsNoSpace(); }
    TrimAround(before, ";", after);
    assert Spaces("") by { NoSpaces(); }
    Stripped(before, "", "", comment);
    assert before + "" + "" == before;
    TrimAllSpaces(before);
    TrimAllSpaces("");
    assert ";"[..0] == "";
  }

  lemma {:induction false} DropReturnsOf(a: string, rest: seq<string>)
    ensures DropReturns([a] + rest) == [DropReturn(a)] + DropReturns(rest)
  {
    assert ([a] + rest)[1..] == rest;
  }

  /** Lines end with a line feed, or with a carriage return and a line feed. */
  lemma FirstLine(a: string, rest: string)
    requires '\n' !in a && (a == "" || a[|a| - 1] != '\r')
    ensures SplitLines(a + "\n" + rest) == [a] + SplitLines(rest) == SplitLines(a + "\r\n" + rest)
    ensures SplitLines(a) == [a]
  {
    hide Split, DropReturns;
    SplitFirst(a, rest, '\n');
    var b := a + "\r";
    assert '\n' !in b && DropReturn(b) == a by { assert b[..|b| - 1] == a; }
    SplitFirst(b, rest, '\n');
    assert a + "\n" + rest == a + ['\n'] + rest && a + "\r\n" + rest == b + ['\n'] + rest;
    var parts := Split(rest, '\n');
    var init, last := parts[..|parts| - 1], [parts[|parts| - 1]];
    assert ([a] + parts)[..|parts|] == [a] + init && ([b] + parts)[..|parts|] == [b] + init;
    DropReturnsOf(a, init);
    DropReturnsOf(b, init);
    ConcatAssociates([a], DropReturns(init), last);
    assert [a][..0] == [] && DropReturns([]) == [] && [] + [a] == [a];
  }
}
