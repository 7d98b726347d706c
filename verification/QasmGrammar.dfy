/** The statement grammars: each matcher accepts exactly the texts of its pattern. */
module QasmGrammar {
  import opened Options
  import opened Text
  import opened QasmParser
  import opened QasmReading
  import opened QasmErrors

  // ----- pieces

  /** At least one space. */
  predicate Gap(s: string) { s != "" && All(s, IsSpace) }

  /** At least one digit, with this value. */
  predicate Numeral(s: string, n: nat) { s != "" && All(s, IsDigit) && ParseNat(s) == n }

  lemma SplitAt(s: string, k: nat)
    requires k <= |s|
    ensures s[..k] + s[k..] == s
  {}

  lemma NameHead(name: string)
    requires Name(name)
    ensures name != "" && !IsSpace(name[0]) && IsWord(name[0])
  {}

  lemma IdentFrom(s: string, a: string, r: string)
    requires MatchIdent(s) == Option.Some((a, r))
    ensures s == a + r && Name(a) && (r == "" || !IsWord(r[0]))
  {
    SplitAt(s, CountWhile(s, IsWord));
    assert CountWhile(s, IsWord) > 0;
  }

  lemma GapSkipped(gap: string, r: string)
    requires Gap(gap) && (r == "" || !IsSpace(r[0]))
    ensures MatchSpaces(gap + r) == Option.Some(r)
  {
    hide IsSpace;
    CountWhileStops(gap, r, IsSpace);
    assert (gap + r)[|gap|..] == r && (gap + r)[0] in gap;
  }

  lemma GapFrom(s: string, r: string) returns (gap: string)
    requires MatchSpaces(s) == Option.Some(r)
    ensures Gap(gap) && s == gap + r && (r == "" || !IsSpace(r[0]))
  {
    hide IsSpace;
    var k := CountWhile(s, IsSpace);
    SplitAt(s, k);
    gap := s[..k];
  }

  lemma IndexRead(d: string, n: nat, r: string)
    requires Numeral(d, n)
    ensures MatchIndex("[" + d + "]" + r) == Option.Some((n, r))
  {
    var s, tail := "[" + d + "]" + r, "]" + r;
    assert s[1..] == d + tail;
    CountWhileStops(d, tail, IsDigit);
    assert (d + tail)[..|d|] == d && (d + tail)[|d|..] == tail && tail[1..] == r;
  }

  lemma IndexFrom(s: string, n: nat, r: string) returns (d: string)
    requires MatchIndex(s) == Option.Some((n, r))
    ensures Numeral(d, n) && s == "[" + d + "]" + r
  {
    var k := CountWhile(s[1..], IsDigit);
    d := s[1..][..k];
    SplitAt(s[1..], k);
    Enclosed(s, d, s[1..][k..], '[', ']');
  }

  lemma Enclosed(s: string, d: string, rest: string, open: char, close: char)
    requires s != "" && s[0] == open && s[1..] == d + rest && rest != "" && rest[0] == close
    ensures s == [open] + d + [close] + rest[1..]
  {
    assert s == [open] + s[1..] && rest == [close] + rest[1..];
  }

  lemma WordRead(word: string, u: string, r: string)
    requires Lower(u) == word
    ensures MatchWord(word, u + r) == Option.Some(r)
  {
    assert (u + r)[..|word|] == u && (u + r)[|word|..] == r;
  }

  lemma WordFrom(word: string, s: string, r: string) returns (u: string)
    requires MatchWord(word, s) == Option.Some(r)
    ensures Lower(u) == word && s == u + r
  {
    SplitAt(s, |word|);
    u := s[..|word|];
  }

  lemma GroupRead(text: string, r: string)
    requires ')' !in text
    ensures MatchGroup("(" + text + ")" + r) == Option.Some((Option.Some(text), r))
  {
    var s, tail := "(" + text + ")" + r, ")" + r;
    assert s[1..] == text + tail;
    CountWhileStops(text, tail, NotClose);
    assert (text + tail)[..|text|] == text && (text + tail)[|text| + 1..] == r;
  }

  lemma GroupFrom(s: string, text: string, r: string)
    requires MatchGroup(s) == Option.Some((Option.Some(text), r))
    ensures s == "(" + text + ")" + r && ')' !in text
  {
    var k := CountWhile(s[1..], NotClose);
    SplitAt(s[1..], k);
    assert s[1..][k..][1..] == s[1..][k + 1..];
    Enclosed(s, text, s[1..][k..], '(', ')');
  }

  // ----- statements

  /** `OPENQASM 3`, with letters of any case and any gap. */
  predicate HeaderText(s: string, u: string, gap: string) {
    Lower(u) == "openqasm" && Gap(gap) && s == u + gap + "3"
  }

  lemma HeaderExactly(s: string)
    ensures IsHeader(s) <==> exists u, gap :: HeaderText(s, u, gap)
  {
    hide MatchWord, MatchSpaces, Gap, Lower;
    if u, gap :| HeaderText(s, u, gap) {
      assert s == u + (gap + "3");
      WordRead("openqasm", u, gap + "3");
      assert !IsSpace('3');
      GapSkipped(gap, "3");
    }
    if IsHeader(s) {
      var r := MatchWord("openqasm", s).value;
      var u := WordFrom("openqasm", s, r);
      var gap := GapFrom(r, "3");
      assert s == u + gap + "3";
      assert HeaderText(s, u, gap);
    }
  }

  /** `include "stdgates.inc"`, likewise. */
  predicate IncludeText(s: string, u: string, gap: string, file: string) {
    Lower(u) == "include" && Gap(gap) && Lower(file) == "\"stdgates.inc\"" && s == u + gap + file
  }

  lemma QuotedFile(file: string)
    requires Lower(file) == "\"stdgates.inc\""
    ensures file != "" && !IsSpace(file[0])
  {
    assert LowerChar(file[0]) == '"';
  }

  lemma IncludeExactly(s: string)
    ensures IsInclude(s) <==> exists u, gap, file :: IncludeText(s, u, gap, file)
  {
    hide MatchWord, MatchSpaces, Gap, Lower, IsSpace;
    if u, gap, file :| IncludeText(s, u, gap, file) {
      assert s == u + (gap + file);
      WordRead("include", u, gap + file);
      QuotedFile(file);
      GapSkipped(gap, file);
    }
    if IsInclude(s) {
      var r := MatchWord("include", s).value;
      var file := MatchSpaces(r).value;
      var u := WordFrom("include", s, r);
      var gap := GapFrom(r, file);
      assert s == u + gap + file;
      assert IncludeText(s, u, gap, file);
    }
  }

  /** `qubit[n] name` or `bit[n] name`. */
  predicate DeclarationText(keyword: string, s: string, d: string, n: nat, gap: string, name: string) {
    Numeral(d, n) && Gap(gap) && Name(name) && s == keyword + ("[" + d + "]" + (gap + name))
  }

  lemma DeclarationExactly(keyword: string, s: string, name: string, n: nat)
    ensures MatchDeclaration(keyword, s) == Option.Some(Register(name, n)) <==>
      exists d, gap :: DeclarationText(keyword, s, d, n, gap, name)
  {
    hide MatchIdent, MatchIndex, MatchSpaces, Gap, Numeral, Name, IsSpace, IsWord;
    if d, gap :| DeclarationText(keyword, s, d, n, gap, name) {
      DeclarationRead(keyword, d, n, gap, name);
    }
    if MatchDeclaration(keyword, s) == Option.Some(Register(name, n)) {
      var rest := s[|keyword|..];
      var tail := MatchIndex(rest).value.1;
      var last := MatchSpaces(tail).value;
      var d := IndexFrom(rest, n, tail);
      var gap := GapFrom(tail, last);
      IdentFrom(last, name, "");
      assert last == name + "" == name;
      SplitAt(s, |keyword|);
      assert DeclarationText(keyword, s, d, n, gap, name);
    }
  }

  lemma DeclarationRead(keyword: string, d: string, n: nat, gap: string, name: string)
    requires Numeral(d, n) && Gap(gap) && Name(name)
    ensures MatchDeclaration(keyword, keyword + ("[" + d + "]" + (gap + name))) == Option.Some(Register(name, n))
  {
    hide MatchIdent, MatchIndex, MatchSpaces, Gap, Numeral, IsSpace, IsWord;
    var rest := "[" + d + "]" + (gap + name);
    assert (keyword + rest)[|keyword|..] == rest;
    IndexRead(d, n, gap + name);
    NameHead(name);
    GapSkipped(gap, name);
    assert name == name + "";
    MatchIdentText(name, "");
  }

  /** `name[i]`. */
  lemma IndexedRead(name: string, d: string, n: nat, r: string)
    requires Name(name) && Numeral(d, n)
    ensures MatchIndexed(name + ("[" + d + "]" + r)) == Option.Some((name, n, r))
  {
    hide MatchIdent, MatchIndex, Numeral;
    MatchIdentText(name, "[" + d + "]" + r);
    IndexRead(d, n, r);
  }

  lemma IndexedFrom(s: string, name: string, n: nat, r: string) returns (d: string)
    requires MatchIndexed(s) == Option.Some((name, n, r))
    ensures Name(name) && Numeral(d, n) && s == name + ("[" + d + "]" + r)
  {
    hide MatchIdent, MatchIndex, Numeral;
    var rest := MatchIdent(s).value.1;
    IdentFrom(s, name, rest);
    d := IndexFrom(rest, n, r);
  }

  predicate OperandText(s: string, d: string, name: string, i: nat) {
    Numeral(d, i) && Name(name) && s == name + ("[" + d + "]" + "")
  }

  /** An operand is `name[i]` inside the register, up to spaces around it. */
  lemma OperandExactly(raw: string, qubit: Register, i: nat)
    ensures ParseOperand(raw, qubit) == Success(i) <==>
      i < qubit.size && exists d :: OperandText(Trim(raw), d, qubit.name, i)
    ensures ParseOperand(raw, qubit).Failure? ==> ParseOperand(raw, qubit).code == InvalidOperand
  {
    hide MatchIndexed, Trim, Name, Numeral;
    var s := Trim(raw);
    if d :| OperandText(s, d, qubit.name, i) {
      IndexedRead(qubit.name, d, i, "");
    }
    if ParseOperand(raw, qubit) == Success(i) {
      var d := IndexedFrom(s, qubit.name, i, "");
      assert OperandText(s, d, qubit.name, i);
    }
  }

  /** `c[i] = measure q[j]`, with optional spaces around the equals sign. */
  predicate MeasureText(s: string, c: string, d: string, i: nat, before: string, after: string, u: string, gap: string,
                        q: string, e: string, j: nat)
  {
    && Name(c) && Numeral(d, i) && All(before, IsSpace) && All(after, IsSpace) && Lower(u) == "measure" && Gap(gap)
    && Name(q) && Numeral(e, j)
    && s == c + ("[" + d + "]" + (before + ("=" + (after + (u + (gap + (q + ("[" + e + "]" + ""))))))))
  }

  lemma StartTrimmed(sp: string, r: string)
    requires All(sp, IsSpace) && (r == "" || !IsSpace(r[0]))
    ensures TrimStart(sp + r) == r
  {
    hide IsSpace;
    CountWhileStops(sp, r, IsSpace);
    assert (sp + r)[|sp|..] == r;
  }

  lemma MeasureHead(u: string, r: string)
    requires Lower(u) == "measure"
    ensures u + r != "" && !IsSpace((u + r)[0])
  {
    assert LowerChar(u[0]) == 'm' && (u + r)[0] == u[0];
  }

  lemma MeasureRead(s: string, c: string, d: string, i: nat, before: string, after: string, u: string, gap: string,
                    q: string, e: string, j: nat)
    requires MeasureText(s, c, d, i, before, after, u, gap, q, e, j)
    ensures MatchMeasure(s) == Option.Some((c, i, q, j))
  {
    hide MatchIndexed, MatchSpaces, MatchWord, TrimStart, Gap, Numeral, IsSpace, Lower, All;
    var r4 := q + ("[" + e + "]" + "");
    var r3 := gap + r4;
    var r2 := "=" + (after + (u + r3));
    IndexedRead(c, d, i, before + r2);
    assert !IsSpace('=') by { EqualsIsNoSpace(); }
    StartTrimmed(before, r2);
    assert r2[1..] == after + (u + r3);
    MeasureHead(u, r3);
    StartTrimmed(after, u + r3);
    WordRead("measure", u, r3);
    NameHead(q);
    assert r4[0] == q[0];
    GapSkipped(gap, r4);
    IndexedRead(q, e, j, "");
  }

  lemma TrimFrom(s: string) returns (sp: string)
    ensures All(sp, IsSpace) && s == sp + TrimStart(s)
  {
    SplitAt(s, CountWhile(s, IsSpace));
    sp := s[..CountWhile(s, IsSpace)];
  }

  lemma MeasureFrom(s: string, c: string, i: nat, q: string, j: nat)
    returns (d: string, before: string, after: string, u: string, gap: string, e: string)
    requires MatchMeasure(s) == Option.Some((c, i, q, j))
    ensures MeasureText(s, c, d, i, before, after, u, gap, q, e, j)
  {
    hide MatchIndexed, MatchSpaces, MatchWord, TrimStart, Gap, Numeral, IsSpace, Lower, All, Name;
    var r1 := MatchIndexed(s).value.2;
    var r2 := TrimStart(r1);
    var r3 := MatchWord("measure", TrimStart(r2[1..])).value;
    var r4 := MatchSpaces(r3).value;
    d := IndexedFrom(s, c, i, r1);
    before := TrimFrom(r1);
    after := TrimFrom(r2[1..]);
    u := WordFrom("measure", TrimStart(r2[1..]), r3);
    gap := GapFrom(r3, r4);
    e := IndexedFrom(r4, q, j, "");
    assert r2 == "=" + r2[1..];
  }

  lemma MeasureGrammar(s: string, c: string, i: nat, q: string, j: nat)
    ensures MatchMeasure(s) == Option.Some((c, i, q, j)) <==>
      exists d, before, after, u, gap, e :: MeasureText(s, c, d, i, before, after, u, gap, q, e, j)
  {
    hide MatchMeasure, MeasureText;
    if d, before, after, u, gap, e :| MeasureText(s, c, d, i, before, after, u, gap, q, e, j) {
      MeasureRead(s, c, d, i, before, after, u, gap, q, e, j);
    }
    if MatchMeasure(s) == Option.Some((c, i, q, j)) {
      var d, before, after, u, gap, e := MeasureFrom(s, c, i, q, j);
    }
  }

  /** A name, an optional group in parentheses, a gap, and operands on one line. */
  predicate GateLineText(s: string, name: string, group: Option<string>, gap: string, operands: string) {
    && Name(name) && Gap(gap) && operands != "" && !IsSpace(operands[0])
    && (forall c :: c in operands ==> c !in {'\n', '\r', '\U{2028}', '\U{2029}'})
    && (group.Some? ==> ')' !in group.value)
    && s == name + ((if group.Some? then "(" + group.value + ")" else "") + (gap + operands))
  }

  lemma OneLine(s: string)
    ensures All(s, NotLineBreak) <==> forall c :: c in s ==> c !in {'\n', '\r', '\U{2028}', '\U{2029}'}
  {
    assert forall c :: NotLineBreak(c) <==> c !in {'\n', '\r', '\U{2028}', '\U{2029}'};
  }

  lemma GateRead(s: string, name: string, group: Option<string>, gap: string, operands: string)
    requires GateLineText(s, name, group, gap, operands)
    ensures MatchGate(s) == Option.Some((name, group, operands))
  {
    hide MatchIdent, MatchGroup, MatchSpaces, All, IsSpace, IsWord;
    var rest := (if group.Some? then "(" + group.value + ")" else "") + (gap + operands);
    GapHead(gap, operands);
    OneLine(operands);
    assert rest == if group.Some? then "(" + group.value + ")" + (gap + operands) else gap + operands;
    assert !IsWord('(') by { ParenIsNoWord(); }
    MatchIdentText(name, rest);
    if group.Some? { GroupRead(group.value, gap + operands); } else { NoGroup(gap + operands); }
    GapSkipped(gap, operands);
  }

  lemma ParenIsNoWord()
    ensures !IsWord('(')
  {}

  lemma GapHead(gap: string, r: string)
    requires Gap(gap)
    ensures gap + r != "" && (gap + r)[0] != '(' && !IsWord((gap + r)[0])
  {
    assert (gap + r)[0] == gap[0] && gap[0] in gap;
  }

  lemma NoGroup(s: string)
    requires s != "" && s[0] != '('
    ensures MatchGroup(s) == Option.Some((Option.None, s))
  {}

  lemma GateFrom(s: string, name: string, group: Option<string>, operands: string) returns (gap: string)
    requires MatchGate(s) == Option.Some((name, group, operands))
    ensures GateLineText(s, name, group, gap, operands)
  {
    hide MatchIdent, MatchSpaces, All, IsSpace, IsWord, Gap, Name;
    var r1 := MatchIdent(s).value.1;
    var r2 := MatchGroup(r1).value.1;
    IdentFrom(s, name, r1);
    OneLine(operands);
    if group.Some? { GroupFrom(r1, group.value, r2); }
    gap := GapFrom(r2, operands);
    assert group.None? ==> "" + (gap + operands) == gap + operands;
  }

  lemma GateGrammar(s: string, name: string, group: Option<string>, operands: string)
    ensures MatchGate(s) == Option.Some((name, group, operands)) <==>
      exists gap :: GateLineText(s, name, group, gap, operands)
  {
    hide MatchGate, GateLineText;
    if gap :| GateLineText(s, name, group, gap, operands) {
      GateRead(s, name, group, gap, operands);
    }
    if MatchGate(s) == Option.Some((name, group, operands)) {
      var gap := GateFrom(s, name, group, operands);
    }
  }
}
