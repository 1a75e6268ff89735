/** The text of .config files: string escaping, assignment lines, and reading them back. */
module ConfigText {
  import opened Wrappers

  const PREFIX := "CONFIG_"
  const NOT_SET := " is not set"

  // ----- escape() and unescape() -----

  /** str.replace() for a single character */
  function Replace(s: string, c: char, with: string): string {
    if s == [] then [] else (if s[0] == c then with else [s[0]]) + Replace(s[1..], c, with)
  }

  function Escape(s: string): string { Replace(Replace(s, '\\', "\\\\"), '\"', "\\\"") }

  /** A backslash followed by any character but a newline stands for that character. */
  function Unescape(s: string): string {
    if s == [] then []
    else if |s| >= 2 && s[0] == '\\' && s[1] != '\n' then [s[1]] + Unescape(s[2..])
    else [s[0]] + Unescape(s[1..])
  }

  /** The contents of a string literal, from after its opening quote: everything up to the first quote that
      is not escaped. None if there is no such quote. */
  function Literal(s: string): Option<string> {
    if s == [] then None
    else if s[0] == '\"' then Some([])
    else if s[0] != '\\' then
      var rest :- Literal(s[1..]);
      Some([s[0]] + rest)
    else if |s| >= 2 && s[1] != '\n' then
      var rest :- Literal(s[2..]);
      Some(s[..2] + rest)
    else None
  }

  function MatchString(s: string): Option<string> { if s != [] && s[0] == '\"' then Literal(s[1..]) else None }

  function Quote(s: string): string { "\"" + Escape(s) + "\"" }

  lemma ReplaceConcat(a: string, b: string, c: char, with: string)
    ensures Replace(a + b, c, with) == Replace(a, c, with) + Replace(b, c, with)
  {
    if a == [] {
      assert a + b == b;
    } else {
      assert (a + b)[1..] == a[1..] + b;
      ReplaceConcat(a[1..], b, c, with);
    }
  }

  /** The two replacements of escape() act on one character at a time. */
  lemma EscapeCons(s: string)
    requires s != []
    ensures Escape(s) == (if s[0] == '\\' then "\\\\" else if s[0] == '\"' then "\\\"" else [s[0]]) + Escape(s[1..])
  {
    var head := if s[0] == '\\' then "\\\\" else [s[0]];
    ReplaceConcat(head, Replace(s[1..], '\\', "\\\\"), '\"', "\\\"");
    if s[0] == '\\' {
      assert Replace("\\\\", '\"', "\\\"") == "\\\\" by {
        assert "\\\\"[1..] == "\\" && "\\"[1..] == "";
      }
    } else {
      assert [s[0]][1..] == [] && Replace([s[0]], '\"', "\\\"") == (if s[0] == '\"' then "\\\"" else [s[0]]);
    }
  }

  /** unescape() undoes escape(), whatever the string holds. */
  lemma {:induction false} UnescapeEscape(s: string)
    ensures Unescape(Escape(s)) == s
  {
    if s != [] {
      EscapeCons(s);
      UnescapeEscape(s[1..]);
      var e := Escape(s);
      if s[0] == '\\' || s[0] == '\"' {
        assert e[0] == '\\' && e[1] == s[0] && e[2..] == Escape(s[1..]);
      } else {
        assert e[0] == s[0] && e[1..] == Escape(s[1..]);
      }
    }
  }

  /** An escaped string holds no quote that could end its literal early. */
  lemma {:induction false} LiteralEscape(s: string, rest: string)
    ensures Literal(Escape(s) + "\"" + rest) == Some(Escape(s))
  {
    var q := "\"" + rest;
    assert forall e: string :: e + "\"" + rest == e + q;
    if s != [] {
      EscapeCons(s);
      LiteralEscape(s[1..], rest);
      var e, tail := Escape(s) + q, Escape(s[1..]) + q;
      if s[0] == '\\' || s[0] == '\"' {
        assert e[0] == '\\' && e[1] == s[0] && e[2..] == tail && e[..2] + Escape(s[1..]) == Escape(s);
      } else {
        assert e[0] == s[0] && e[1..] == tail;
      }
    }
  }

  lemma QuotedValue(s: string)
    ensures MatchString(Quote(s)) == Some(Escape(s)) && Unescape(Escape(s)) == s
  {
    UnescapeEscape(s);
    LiteralEscape(s, "");
    assert Quote(s)[1..] == Escape(s) + "\"" + "";
  }

  // ----- All string literals -----

  /** A character of a literal, as it stands or behind a backslash */
  datatype Unit = Plain(c: char) | Escaped(c: char)

  predicate WellSpelled(us: seq<Unit>) {
    forall x :: x in us ==> if x.Plain? then x.c != '\\' && x.c != '\"' else x.c != '\n'
  }

  function Spelled(us: seq<Unit>): string {
    if us == [] then [] else SpelledOne(us[0]) + Spelled(us[1..])
  }

  function Meant(us: seq<Unit>): string { if us == [] then [] else [us[0].c] + Meant(us[1..]) }

  function SpelledOne(x: Unit): string { if x.Plain? then [x.c] else ['\\', x.c] }

  lemma LiteralStep(x: Unit, rest: string)
    requires WellSpelled([x]) && Literal(rest).Some?
    ensures Literal(SpelledOne(x) + rest) == Some(SpelledOne(x) + Literal(rest).value)
  {
    assert x in [x];
    var s := SpelledOne(x) + rest;
    if x.Plain? { assert s[1..] == rest; } else { assert s[2..] == rest && s[..2] == SpelledOne(x); }
  }

  lemma UnescapeStep(x: Unit, rest: string)
    requires WellSpelled([x])
    ensures Unescape(SpelledOne(x) + rest) == [x.c] + Unescape(rest)
  {
    assert x in [x];
    var s := SpelledOne(x) + rest;
    if x.Plain? { assert s[1..] == rest; } else { assert s[2..] == rest; }
  }

  /** A literal written with any escapes is read as what it means, whatever follows the closing quote. */
  lemma {:induction false} LiteralRead(us: seq<Unit>, tail: string)
    requires WellSpelled(us)
    ensures Literal(Spelled(us) + "\"" + tail) == Some(Spelled(us)) && Unescape(Spelled(us)) == Meant(us)
  {
    if us == [] {
      assert "" + "\"" + tail == "\"" + tail;
    } else {
      assert us[0] in us && forall x :: x in us[1..] ==> x in us;
      LiteralRead(us[1..], tail);
      LiteralStep(us[0], Spelled(us[1..]) + "\"" + tail);
      UnescapeStep(us[0], Spelled(us[1..]));
      FourParts(SpelledOne(us[0]), Spelled(us[1..]), "\"", tail);
    }
  }

  /** Nothing else is read as a literal. */
  lemma {:induction false} LiteralSpelled(s: string) returns (us: seq<Unit>, tail: string)
    requires Literal(s).Some?
    ensures WellSpelled(us) && s == Spelled(us) + "\"" + tail && Literal(s) == Some(Spelled(us))
  {
    if s[0] == '\"' {
      us, tail := [], s[1..];
      assert s == "\"" + tail;
    } else {
      var x := if s[0] != '\\' then Plain(s[0]) else Escaped(s[1]);
      var rest := s[|SpelledOne(x)|..];
      us, tail := LiteralSpelled(rest);
      OneMore(x, us, tail);
      assert s == SpelledOne(x) + rest;
      us := [x] + us;
    }
  }

  lemma OneMore(x: Unit, us: seq<Unit>, tail: string)
    requires WellSpelled([x]) && WellSpelled(us) && Literal(Spelled(us) + "\"" + tail) == Some(Spelled(us))
    ensures WellSpelled([x] + us)
    ensures SpelledOne(x) + (Spelled(us) + "\"" + tail) == Spelled([x] + us) + "\"" + tail
    ensures Literal(Spelled([x] + us) + "\"" + tail) == Some(Spelled([x] + us))
  {
    assert x in [x];
    SpelledCons(x, us);
    LiteralStep(x, Spelled(us) + "\"" + tail);
    FourParts(SpelledOne(x), Spelled(us), "\"", tail);
  }

  lemma SpelledCons(x: Unit, us: seq<Unit>)
    ensures Spelled([x] + us) == SpelledOne(x) + Spelled(us)
  {
    assert ([x] + us)[1..] == us;
  }

  // ----- Lines -----

  /** What Python's str.rstrip() takes for white space */
  predicate IsSpace(c: char) {
    || '\U{9}' <= c <= '\U{D}' || '\U{1C}' <= c <= '\U{20}' || c == '\U{85}' || c == '\U{A0}' || c == '\U{1680}'
    || '\U{2000}' <= c <= '\U{200A}' || c == '\U{2028}' || c == '\U{2029}' || c == '\U{202F}' || c == '\U{205F}'
    || c == '\U{3000}'
  }

  function RStrip(s: string): (r: string)
    ensures r <= s && (r != [] ==> !IsSpace(r[|r| - 1]))
    ensures forall j :: |r| <= j < |s| ==> IsSpace(s[j])
  {
    if s != [] && IsSpace(s[|s| - 1]) then RStrip(s[..|s| - 1]) else s
  }

  /** The index of the first `c` in `s`, or |s| */
  function Find(s: string, c: char): (i: nat)
    ensures i <= |s| && (i < |s| ==> s[i] == c) && forall j :: 0 <= j < i ==> s[j] != c
  {
    if s == [] || s[0] == c then 0 else 1 + Find(s[1..], c)
  }

  datatype Assignment = Set(name: string, val: string) | Unset(name: string)

  function ParseSet(prefix: string, line: string): Option<Assignment> {
    if prefix <= line then
      var rest := line[|prefix|..];
      var i := Find(rest, '=');
      if 0 < i < |rest| then Some(Set(rest[..i], rest[i + 1..])) else None
    else None
  }

  function ParseUnset(head: string, line: string): Option<Assignment> {
    if head <= line then
      var rest := line[|head|..];
      var i := Find(rest, ' ');
      if 0 < i && NOT_SET <= rest[i..] then Some(Unset(rest[..i])) else None
    else None
  }

  /** One line of a .config file, read as _load_config() does */
  function ParseLine(line: string): Option<Assignment> {
    var l := RStrip(line);
    var found := ParseSet(PREFIX, l);
    if found.Some? then found else ParseUnset("# " + PREFIX, l)
  }

  function SetLine(name: string, val: string): string { PREFIX + name + "=" + val }

  function UnsetLine(name: string): string { "# " + PREFIX + name + NOT_SET }

  predicate ProperName(name: string) { name != [] && forall c :: c in name ==> c != '=' && !IsSpace(c) }

  lemma FindAt(a: string, c: char, b: string)
    requires c !in a
    ensures Find(a + [c] + b, c) == |a|
  {
    var s := a + [c] + b;
    assert s[|a|] == c;
    assert forall j :: 0 <= j < |a| ==> s[j] == a[j] && a[j] in a;
  }

  lemma SetAfter(p: string, name: string, val: string)
    requires ProperName(name)
    ensures ParseSet(p, p + name + "=" + val) == Some(Set(name, val))
  {
    var l := p + name + "=" + val;
    var rest := name + ['='] + val;
    assert l[..|p|] == p && l[|p|..] == rest;
    FindAt(name, '=', val);
    assert rest[..|name|] == name && rest[|name| + 1..] == val;
  }

  lemma UnsetAfter(p: string, name: string)
    requires ProperName(name)
    ensures ParseUnset(p, p + name + NOT_SET) == Some(Unset(name))
  {
    var l := p + name + NOT_SET;
    var rest := name + [' '] + "is not set";
    assert l[..|p|] == p && l[|p|..] == rest;
    FindAt(name, ' ', "is not set");
    assert rest[..|name|] == name && rest[|name|..] == NOT_SET;
  }

  lemma Ends(a: string, b: string)
    requires a != [] && !IsSpace(a[|a| - 1]) && RStrip(b) == b
    ensures RStrip(a + b) == a + b
  {
    assert b == [] ==> a + b == a;
    assert b != [] ==> (a + b)[|a + b| - 1] == b[|b| - 1];
  }

  /** An assignment line is read as that name with the value stripped on the right. */
  lemma SetLineParsed(name: string, val: string)
    requires ProperName(name)
    ensures ParseLine(SetLine(name, val)) == Some(Set(name, RStrip(val)))
  {
    var front := PREFIX + name + "=";
    StripSuffix(front, val);
    RStripIdempotent(val);
    Ends(front, RStrip(val));
    SetAfter(PREFIX, name, RStrip(val));
  }

  lemma UnsetLineParsed(name: string)
    requires ProperName(name)
    ensures ParseLine(UnsetLine(name)) == Some(Unset(name))
  {
    var l := UnsetLine(name);
    assert l[|l| - 1] == 't' && l[0] == '#';
    UnsetAfter("# " + PREFIX, name);
  }

  lemma QuotedLineParsed(name: string, s: string)
    requires ProperName(name)
    ensures ParseLine(SetLine(name, Quote(s))) == Some(Set(name, Quote(s)))
  {
    assert Quote(s)[|Quote(s)| - 1] == '\"';
    SetLineParsed(name, Quote(s));
  }

  /** A number is not quoted, so the loader's rstrip() takes trailing white space off it: the value comes
      back exactly when it has none. */
  lemma NumberLineParsed(name: string, val: string)
    requires ProperName(name)
    ensures ParseLine(SetLine(name, val)) == Some(Set(name, val)) <==> RStrip(val) == val
  {
    SetLineParsed(name, val);
  }

  lemma RStripIdempotent(s: string)
    ensures RStrip(RStrip(s)) == RStrip(s)
  {
  }

  lemma StripSuffix(a: string, b: string)
    ensures RStrip(a + b) == RStrip(a + RStrip(b))
  {
    if b != [] && IsSpace(b[|b| - 1]) {
      assert (a + b)[..|a + b| - 1] == a + b[..|b| - 1];
      StripSuffix(a, b[..|b| - 1]);
    }
  }

  // ----- Comment lines -----

  /** A line that cannot assign a value: blank, or a comment */
  predicate Comment(line: string) { line == [] || line[0] == '#' }

  lemma CommentSetsNothing(line: string)
    requires Comment(line)
    ensures ParseLine(line).Some? ==> ParseLine(line).value.Unset?
  {
    var l := RStrip(line);
    assert PREFIX[0] == 'C';
    if l != [] { assert l[0] == line[0]; }
  }

  lemma {:induction false} StripKeepsPrefix(p: string, s: string)
    requires p != [] && !IsSpace(p[|p| - 1])
    ensures p <= RStrip(s) <==> p <= s
  {
    if s != [] && IsSpace(s[|s| - 1]) {
      var short := s[..|s| - 1];
      StripKeepsPrefix(p, short);
      if p <= s { assert |p| != |s|; }
    }
  }

  lemma FoundName(rest: string, name: string)
    requires name != [] && ' ' !in name && name + NOT_SET <= rest
    ensures Find(rest, ' ') == |name| && rest[..|name|] == name && NOT_SET <= rest[|name|..]
  {
    assert rest[|name|] == (name + NOT_SET)[|name|] == NOT_SET[0];
    assert rest == name + [' '] + rest[|name| + 1..];
    FindAt(name, ' ', rest[|name| + 1..]);
    PrefixOfConcat(name, NOT_SET, rest[|name|..]);
    assert rest == name + rest[|name|..];
  }

  /** Reading from after the head: the name ends at the first space. */
  lemma UnsetBody(rest: string, name: string)
    ensures (var i := Find(rest, ' '); 0 < i && NOT_SET <= rest[i..] && rest[..i] == name)
      <==> name != [] && ' ' !in name && name + NOT_SET <= rest
  {
    var i := Find(rest, ' ');
    if 0 < i && NOT_SET <= rest[i..] && rest[..i] == name {
      assert rest == name + rest[i..];
      PrefixOfConcat(name, NOT_SET, rest[i..]);
    }
    if name != [] && ' ' !in name && name + NOT_SET <= rest { FoundName(rest, name); }
  }

  lemma PrefixOfConcat(a: string, b: string, c: string)
    ensures a + b <= a + c <==> b <= c
  {
    if a + b <= a + c { assert (a + c)[..|a + b|][|a|..] == c[..|b|] && (a + b)[|a|..] == b; }
  }

  lemma UnsetRead(head: string, l: string, name: string)
    ensures ParseUnset(head, l) == Some(Unset(name)) <==> name != [] && ' ' !in name && head + (name + NOT_SET) <= l
  {
    if head <= l {
      var rest := l[|head|..];
      assert l == head + rest;
      UnsetBody(rest, name);
      PrefixOfConcat(head, name + NOT_SET, rest);
    }
  }

  /** A comment is never an assignment, and trailing white space does not matter to it. */
  lemma CommentRead(line: string, name: string)
    requires Comment(line)
    ensures ParseLine(line) == Some(Unset(name)) <==>
      name != [] && ' ' !in name && "# " + PREFIX + (name + NOT_SET) <= line
  {
    var l, head := RStrip(line), "# " + PREFIX;
    assert ParseSet(PREFIX, l).None? by { assert PREFIX[0] == 'C' && (l != [] ==> l[0] == line[0]); }
    UnsetRead(head, l, name);
    var p := head + (name + NOT_SET);
    assert p[|p| - 1] == NOT_SET[|NOT_SET| - 1] == 't';
    StripKeepsPrefix(p, line);
  }

  /** Exactly when a comment with the text `x` is taken for the line of an unset symbol, and of which */
  lemma TitleRead(x: string, name: string)
    ensures ParseLine("# " + x) == Some(Unset(name)) <==> name != [] && ' ' !in name && PREFIX + (name + NOT_SET) <= x
  {
    CommentRead("# " + x, name);
    PrefixOfConcat("# ", PREFIX + (name + NOT_SET), x);
    assert "# " + PREFIX + (name + NOT_SET) == "# " + (PREFIX + (name + NOT_SET));
  }

  lemma OtherStart(line: string, name: string)
    requires |line| > 2 && line[2] != PREFIX[0]
    ensures !("# " + PREFIX + (name + NOT_SET) <= line)
  {
    assert ("# " + PREFIX + (name + NOT_SET))[2] == PREFIX[0];
  }

  /** The other lines that surround symbols assign nothing. */
  lemma PlainComments(x: string)
    ensures ParseLine("") == None && ParseLine("#") == None && ParseLine("# end of " + x) == None
  {
    var line := "# end of " + x;
    assert line[2] == 'e' && PREFIX[0] == 'C';
    CommentSetsNothing(line);
    forall name ensures ParseLine(line) != Some(Unset(name)) {
      CommentRead(line, name);
      OtherStart(line, name);
    }
  }

  // ----- What a line says -----

  /** The line, without white space at its end, is the assignment of the value to the name. */
  predicate Assigns(line: string, name: string, val: string) {
    name != [] && '=' !in name && RStrip(line) == PREFIX + name + "=" + val
  }

  /** The line starts with the comment that the name is not set. */
  predicate Clears(line: string, name: string) {
    name != [] && ' ' !in name && "# " + PREFIX + (name + NOT_SET) <= line
  }

  lemma SetRead(p: string, l: string, name: string, val: string)
    ensures ParseSet(p, l) == Some(Set(name, val)) <==> name != [] && '=' !in name && l == p + name + "=" + val
  {
    if name != [] && '=' !in name && l == p + name + "=" + val {
      var rest := name + ['='] + val;
      assert l == p + rest && l[|p|..] == rest;
      FindAt(name, '=', val);
      assert rest[..|name|] == name && rest[|name| + 1..] == val;
    }
    if ParseSet(p, l) == Some(Set(name, val)) { SetParts(p, l[|p|..], name, val); }
  }

  lemma SetParts(p: string, rest: string, name: string, val: string)
    requires var i := Find(rest, '='); 0 < i < |rest| && name == rest[..i] && val == rest[i + 1..]
    ensures name != [] && '=' !in name && p + rest == p + name + "=" + val
  {
    NotBefore(rest, Find(rest, '='), '=');
    CutAt(rest, Find(rest, '='));
    FourParts(p, name, "=", val);
  }

  lemma NotBefore(s: string, i: nat, c: char)
    requires i <= |s| && forall j :: 0 <= j < i ==> s[j] != c
    ensures c !in s[..i]
  {
  }

  lemma CutAt(s: string, i: nat)
    requires i < |s|
    ensures s == s[..i] + [s[i]] + s[i + 1..]
  {
  }

  lemma FourParts(a: string, b: string, c: string, d: string)
    ensures a + (b + c + d) == a + b + c + d
  {
  }

  /** Exactly the assignments and comments of these forms are read, and nothing else. */
  lemma LineRead(line: string, name: string, val: string)
    ensures ParseLine(line) == Some(Set(name, val)) <==> Assigns(line, name, val)
    ensures ParseLine(line) == Some(Unset(name)) <==> Clears(line, name)
  {
    var l, p := RStrip(line), "# " + PREFIX + (name + NOT_SET);
    SetRead(PREFIX, l, name, val);
    UnsetRead("# " + PREFIX, l, name);
    assert p[|p| - 1] == NOT_SET[|NOT_SET| - 1] == 't';
    StripKeepsPrefix(p, line);
    OneKind(l);
  }

  lemma OneKind(l: string)
    ensures ParseSet(PREFIX, l).Some? ==> ParseSet(PREFIX, l).value.Set? && !("# " + PREFIX <= l)
  {
    assert PREFIX[0] == 'C' && ("# " + PREFIX)[0] == '#';
  }

  // ----- Files -----

  predicate IsBreak(c: char) { c == '\n' || c == '\r' }

  function FindBreak(s: string): (i: nat)
    ensures i <= |s| && (i < |s| ==> IsBreak(s[i])) && forall j :: 0 <= j < i ==> !IsBreak(s[j])
  {
    if s == [] || IsBreak(s[0]) then 0 else 1 + FindBreak(s[1..])
  }

  /** The lines of a file opened in text mode, where \n, \r and \r\n all end a line */
  function SplitLines(s: string): seq<string>
    decreases |s|
  {
    if s == [] then [] else
    var i := FindBreak(s);
    if i == |s| then [s] else
    [s[..i]] + SplitLines(s[i + BreakWidth(s, i)..])
  }

  function BreakWidth(s: string, i: nat): (width: nat)
    requires i < |s|
    ensures 1 <= width <= |s| - i
  {
    if s[i] == '\r' && i + 1 < |s| && s[i + 1] == '\n' then 2 else 1
  }

  function JoinLines(lines: seq<string>): string {
    if lines == [] then [] else lines[0] + "\n" + JoinLines(lines[1..])
  }

  predicate OneLine(s: string) { forall c :: c in s ==> !IsBreak(c) }

  lemma OneLineConcat(a: string, b: string)
    requires OneLine(a) && OneLine(b)
    ensures OneLine(a + b)
  {
  }

  lemma LinesOfName(name: string)
    requires OneLine(name)
    ensures OneLine(UnsetLine(name)) && OneLine(PREFIX + name + "=")
  {
    OneLineConcat("# ", PREFIX);
    OneLineConcat("# " + PREFIX, name);
    OneLineConcat("# " + PREFIX + name, NOT_SET);
    OneLineConcat(PREFIX, name);
    OneLineConcat(PREFIX + name, "=");
  }

  lemma SetLineOneLine(name: string, val: string)
    requires OneLine(name) && OneLine(val)
    ensures OneLine(SetLine(name, val))
  {
    LinesOfName(name);
    OneLineConcat(PREFIX + name + "=", val);
  }

  lemma QuoteOneLine(s: string)
    requires OneLine(s)
    ensures OneLine(Quote(s))
  {
    EscapeOneLine(s);
    OneLineConcat("\"", Escape(s));
    OneLineConcat("\"" + Escape(s), "\"");
  }

  lemma FirstBreak(l: string, rest: string)
    requires OneLine(l)
    ensures FindBreak(l + "\n" + rest) == |l|
  {
    var s := l + "\n" + rest;
    assert s[|l|] == '\n';
    assert forall j :: 0 <= j < |l| ==> s[j] == l[j] && l[j] in l;
  }

  lemma {:induction false} SplitJoin(lines: seq<string>)
    requires forall l :: l in lines ==> OneLine(l)
    ensures SplitLines(JoinLines(lines)) == lines
  {
    if lines != [] {
      var l, rest := lines[0], JoinLines(lines[1..]);
      FirstBreak(l, rest);
      var s := l + "\n" + rest;
      assert s[|l|] == '\n' && s[..|l|] == l && s[|l| + 1..] == rest;
      SplitJoin(lines[1..]);
    }
  }

  /** Lines may end in \n, \r or \r\n, and the last one in nothing. */
  lemma LineEnds(l: string, rest: string)
    requires OneLine(l)
    ensures SplitLines(l + "\n" + rest) == [l] + SplitLines(rest)
    ensures SplitLines(l + "\r\n" + rest) == [l] + SplitLines(rest)
    ensures rest == [] || rest[0] != '\n' ==> SplitLines(l + "\r" + rest) == [l] + SplitLines(rest)
    ensures l != [] ==> SplitLines(l) == [l]
  {
    LineEnd(l, "\n", rest);
    LineEnd(l, "\r\n", rest);
    if rest == [] || rest[0] != '\n' { LineEnd(l, "\r", rest); }
    LastLine(l);
  }

  lemma LastLine(l: string)
    requires OneLine(l)
    ensures l != [] ==> SplitLines(l) == [l]
  {
    assert FindBreak(l) == |l| by { assert forall j :: 0 <= j < |l| ==> l[j] in l; }
  }

  lemma LineEnd(l: string, end: string, rest: string)
    requires OneLine(l) && end in ["\n", "\r\n", "\r"] && (end == "\r" ==> rest == [] || rest[0] != '\n')
    ensures SplitLines(l + end + rest) == [l] + SplitLines(rest)
  {
    BreakAt(l, end + rest);
    Regroup(l, end, rest);
    EndWidth(l, end, rest);
    CutParts(l, end, rest);
  }

  lemma Regroup(a: string, b: string, c: string)
    ensures a + b + c == a + (b + c)
  {
  }

  lemma CutParts(a: string, b: string, c: string)
    ensures (a + (b + c))[..|a|] == a && (a + (b + c))[|a| + |b|..] == c
  {
    assert (a + (b + c))[|a|..] == b + c;
  }

  lemma BreakAt(l: string, s: string)
    requires OneLine(l) && s != [] && IsBreak(s[0])
    ensures FindBreak(l + s) == |l|
  {
    assert forall j :: 0 <= j < |l| ==> (l + s)[j] == l[j] && l[j] in l;
    assert (l + s)[|l|] == s[0];
  }

  lemma EndWidth(l: string, end: string, rest: string)
    requires end in ["\n", "\r\n", "\r"] && (end == "\r" ==> rest == [] || rest[0] != '\n')
    ensures BreakWidth(l + (end + rest), |l|) == |end|
  {
    var s := l + (end + rest);
    assert s[|l|..] == end + rest;
    assert s[|l|] == end[0] && (|s| > |l| + 1 ==> s[|l| + 1] == (end + rest)[1]);
  }

  lemma EscapeOneLine(s: string)
    requires OneLine(s)
    ensures OneLine(Escape(s))
  {
    if s != [] {
      EscapeCons(s);
      assert s[0] in s && forall c :: c in s[1..] ==> c in s;
      EscapeOneLine(s[1..]);
    }
  }
}
