/** The .patchi/.env helpers of patchi/web/api_legacy.py: a text file that has
    to behave like a map from variable names to values. Texts are decoded
    strings with newlines already normalised by text-mode I/O. */
module EnvFile {
  import opened Common
  import opened Texts

  type Text = string

  /** The characters str.splitlines breaks a line at. */
  predicate IsLineBreak(c: char) {
    c == '\n' || c == '\r' || c == '\U{0B}' || c == '\U{0C}' || c == '\U{1C}' || c == '\U{1D}' || c == '\U{1E}'
    || c == '\U{85}' || c == '\U{2028}' || c == '\U{2029}'
  }

  /** The characters str.strip() removes. */
  predicate IsSpace(c: char) {
    IsLineBreak(c) || c == '\t' || c == '\U{1F}' || c == ' ' || c == '\U{A0}' || c == '\U{1680}'
    || '\U{2000}' <= c <= '\U{200A}' || c == '\U{202F}' || c == '\U{205F}' || c == '\U{3000}'
  }

  /** Length of the first line, its break excluded. */
  function LineLength(t: Text): (n: nat)
    ensures n <= |t|
    ensures forall i :: 0 <= i < n ==> !IsLineBreak(t[i])
    ensures n < |t| ==> IsLineBreak(t[n])
  {
    if t == [] || IsLineBreak(t[0]) then 0 else 1 + LineLength(t[1..])
  }

  /** str.splitlines: "\r\n" is one break, and a final break ends no extra line. */
  function SplitLines(t: Text): seq<Text>
    decreases |t|
  {
    if t == [] then []
    else
      var n := LineLength(t);
      if n == |t| then [t] else [t[..n]] + SplitLines(BehindBreak(t, n))
  }

  /** What follows the line break at n. */
  function BehindBreak(t: Text, n: nat): (rest: Text)
    requires n < |t|
    ensures |rest| < |t|
  {
    if t[n] == '\r' && n + 1 < |t| && t[n + 1] == '\n' then t[n + 2..] else t[n + 1..]
  }

  /** "\n".join(lines) */
  function Join(lines: seq<Text>): Text {
    if lines == [] then [] else if |lines| == 1 then lines[0] else lines[0] + ['\n'] + Join(lines[1..])
  }

  predicate NoBreaks(line: Text) { forall i :: 0 <= i < |line| ==> !IsLineBreak(line[i]) }

  lemma {:induction false} LineLengthOf(line: Text, rest: Text)
    requires NoBreaks(line) && (rest == [] || IsLineBreak(rest[0]))
    ensures LineLength(line + rest) == |line|
  {
    if line == [] {
      assert line + rest == rest;
    } else {
      assert (line + rest)[1..] == line[1..] + rest;
      LineLengthOf(line[1..], rest);
    }
  }

  /** Writing lines and splitting them again loses nothing; no lines at all
      come back as one blank line. */
  lemma {:induction false} SplitJoin(lines: seq<Text>)
    requires forall i :: 0 <= i < |lines| ==> NoBreaks(lines[i])
    ensures SplitLines(Join(lines) + ['\n']) == if lines == [] then [[]] else lines
    decreases |lines|
  {
    if lines == [] {
      assert SplitLines(['\n']) == [[]] + SplitLines([]);
      assert Join(lines) + ['\n'] == ['\n'];
    } else {
      var head, tail := lines[0], lines[1..];
      var more := if tail == [] then [] else Join(tail) + ['\n'];
      assert Join(lines) + ['\n'] == head + ['\n'] + more;
      SplitFirst(head, more);
      SplitJoin(tail);
      assert lines == [head] + tail;
    }
  }

  /** Lines end at each of these breaks, of which "\r\n" is one; and what is
      behind the last break is a line if there is anything. */
  lemma SplitAtBreak(line: Text, br: Text, more: Text)
    requires NoBreaks(line)
    requires || br in {"\n", "\r", "\r\n", "\U{0B}", "\U{0C}", "\U{1C}", "\U{1D}", "\U{1E}"}
             || br in {"\U{85}", "\U{2028}", "\U{2029}"}
    requires br == "\r" && more != [] ==> more[0] != '\n'
    ensures SplitLines(line + br + more) == [line] + SplitLines(more)
    ensures SplitLines(line) == if line == [] then [] else [line]
  {
    BreakShape(br);
    SplitBehind(line, br, more);
    LineLengthOf(line, []);
    assert line + [] == line && line[..|line|] == line;
  }

  lemma SplitBehind(line: Text, br: Text, more: Text)
    requires NoBreaks(line)
    requires (|br| == 1 && IsLineBreak(br[0])) || (|br| == 2 && br[0] == '\r' && br[1] == '\n')
    requires |br| == 1 && br[0] == '\r' && more != [] ==> more[0] != '\n'
    ensures SplitLines(line + br + more) == [line] + SplitLines(more)
  {
    var t := line + br + more;
    assert t == line + (br + more);
    LineLengthOf(line, br + more);
    assert t[|line|] == br[0] && t[..|line|] == line;
    assert t[|line| + |br|..] == more;
    assert |br| == 1 && |line| + 1 < |t| ==> t[|line| + 1] == more[0];
    assert |br| == 2 ==> t[|line| + 1] == br[1];
    assert BehindBreak(t, |line|) == more;
  }

  lemma BreakShape(br: Text)
    requires || br in {"\n", "\r", "\r\n", "\U{0B}", "\U{0C}", "\U{1C}", "\U{1D}", "\U{1E}"}
             || br in {"\U{85}", "\U{2028}", "\U{2029}"}
    ensures (|br| == 1 && IsLineBreak(br[0])) || (|br| == 2 && br[0] == '\r' && br[1] == '\n')
    ensures |br| == 1 && br[0] == '\r' ==> br == "\r"
  {
  }

  lemma SplitFirst(line: Text, more: Text)
    requires NoBreaks(line)
    ensures SplitLines(line + ['\n'] + more) == [line] + SplitLines(more)
  {
    var t := line + ['\n'] + more;
    assert t == line + (['\n'] + more);
    LineLengthOf(line, ['\n'] + more);
    assert t[|line|] == '\n' && t[..|line|] == line && t[|line| + 1..] == more;
  }

  // ---- The helpers ----

  /** line.startswith(prefix) */
  predicate StartsWith(line: Text, prefix: Text) { |prefix| <= |line| && line[..|prefix|] == prefix }

  /** s.strip(chars) for a set of characters. */
  function StripWhere(s: Text, drop: char -> bool): Text { StripRight(StripLeft(s, drop), drop) }

  function StripLeft(s: Text, drop: char -> bool): Text {
    if s != [] && drop(s[0]) then StripLeft(s[1..], drop) else s
  }

  function StripRight(s: Text, drop: char -> bool): Text {
    if s != [] && drop(s[|s| - 1]) then StripRight(s[..|s| - 1], drop) else s
  }

  predicate IsDouble(c: char) { c == '"' }
  predicate IsSingle(c: char) { c == '\'' }

  /** .strip().strip('"').strip("'") */
  function Unquote(s: Text): Text {
    StripWhere(StripWhere(StripWhere(s, IsSpace), IsDouble), IsSingle)
  }

  function Quoted(value: Text): Text { ['"'] + value + ['"'] }

  function Assignment(key: Text, value: Text): Text { key + ['='] + Quoted(value) }

  /** The lines the writer and the remover keep; they look at the bare line. */
  function OtherLines(lines: seq<Text>, key: Text): (kept: seq<Text>)
    ensures forall l :: l in kept <==> l in lines && !StartsWith(l, key + ['='])
  {
    if lines == [] then []
    else
      assert forall l :: l in lines <==> l == lines[0] || l in lines[1..];
      var rest := OtherLines(lines[1..], key);
      if StartsWith(lines[0], key + ['=']) then rest else [lines[0]] + rest
  }

  /** The reader takes this line for the key; it looks at the stripped line. */
  predicate Assigns(line: Text, key: Text) { StartsWith(StripWhere(line, IsSpace), key + ['=']) }

  function Lines(file: Option<Text>): seq<Text> { if file.None? then [] else SplitLines(file.value) }

  function Written(file: Option<Text>, key: Text, value: Text): Option<Text> {
    Some(Join(OtherLines(Lines(file), key) + [Assignment(key, value)]) + ['\n'])
  }

  function Removed(file: Option<Text>, key: Text): Option<Text> {
    if file.None? then None else Some(Join(OtherLines(Lines(file), key)) + ['\n'])
  }

  function ReadLines(lines: seq<Text>, key: Text): Text {
    if lines == [] then []
    else
      if Assigns(lines[0], key) then Unquote(StripWhere(lines[0], IsSpace)[|key| + 1..]) else ReadLines(lines[1..], key)
  }

  function Read(file: Option<Text>, key: Text): Text { ReadLines(Lines(file), key) }

  /** The new line comes last; in front are the old ones that are not the key's. */
  ghost predicate LineMoved(before: seq<Text>, after: seq<Text>, key: Text, line: Text) {
    && after != [] && after[|after| - 1] == line
    && forall l :: l in after[..|after| - 1] <==> l in before && !StartsWith(l, key + ['='])
  }

  const IGNORED: Text := ".patchi/.env"
  const ENTRY: Text := ['\n'] + IGNORED + ['\n']

  /** .gitignore after a write: the entry is appended to the stripped content
      unless it occurs already. */
  function Ignoring(content: Text): (r: Text)
    ensures Contains(r, IGNORED)
    ensures Contains(content, IGNORED) ==> r == content
    ensures StripRight(content, IsSpace) <= r
  {
    StripRightPart(content, IsSpace);
    if Contains(content, IGNORED) then content
    else
      EntryOccurs(StripRight(content, IsSpace));
      StripRight(content, IsSpace) + ENTRY
  }

  lemma EntryOccurs(front: Text)
    ensures Contains(front + ENTRY, IGNORED)
  {
    var n := |front| + 1;
    assert front + ENTRY == front + ['\n'] + IGNORED + ['\n'];
    assert (front + ENTRY)[n..n + |IGNORED|] == IGNORED;
    assert OccursAt(front + ENTRY, IGNORED, n);
  }

  class EnvFile {
    var text: Option<Text>        // None: the file does not exist
    var gitignore: Option<Text>   // the project's .gitignore

    constructor (gitignore: Option<Text>)
      ensures text == None && this.gitignore == gitignore
    {
      text, this.gitignore := None, gitignore;
    }

    method ReadKey(key: Text) returns (value: Text)
      ensures value == Read(text, key)
    {
      if text.None? {
        return [];
      }
      var lines := SplitLines(text.value);
      var i := 0;
      assert lines[0..] == lines;
      while i < |lines|
        invariant 0 <= i <= |lines|
        invariant ReadLines(lines, key) == ReadLines(lines[i..], key)
      {
        assert lines[i..][0] == lines[i] && lines[i..][1..] == lines[i + 1..];
        var line := StripWhere(lines[i], IsSpace);
        if StartsWith(line, key + ['=']) {
          return Unquote(line[|key| + 1..]);
        }
        i := i + 1;
      }
      return [];
    }

    /** The key's old lines go, its new line comes last, and a .gitignore, if
        there is one, names the file. */
    method WriteKey(key: Text, value: Text)
      modifies this
      ensures text == Written(old(text), key, value)
      ensures NoBreaks(key) && NoBreaks(value) ==> LineMoved(Lines(old(text)), Lines(text), key, Assignment(key, value))
      ensures gitignore.Some? <==> old(gitignore).Some?
      ensures gitignore.Some? ==> gitignore.value == Ignoring(old(gitignore).value)
    {
      var lines := if text.Some? then SplitLines(text.value) else [];
      lines := OtherLines(lines, key);
      lines := lines + [Assignment(key, value)];
      text := Some(Join(lines) + ['\n']);
      if gitignore.Some? {
        if !Contains(gitignore.value, IGNORED) {
          gitignore := Some(StripRight(gitignore.value, IsSpace) + ENTRY);
        }
      }
      if NoBreaks(key) && NoBreaks(value) { WrittenMembers(old(text), key, value); }
    }

    /** The key's lines go; a missing file stays missing. */
    method RemoveKey(key: Text)
      modifies this`text
      ensures text == Removed(old(text), key)
      ensures text.Some? <==> old(text).Some?
      ensures forall l :: l != [] ==>
                (l in Lines(text) <==> l in Lines(old(text)) && !StartsWith(l, key + ['=']))
    {
      if text.None? {
        return;
      }
      var lines := OtherLines(SplitLines(text.value), key);
      text := Some(Join(lines) + ['\n']);
      RemovedLines(old(text), key);
    }
  }

  // ---- Which values survive ----

  /** Neither end of the value is a quote character of this kind. */
  predicate NotQuotedBy(v: Text, quote: char -> bool) { v == [] || (!quote(v[0]) && !quote(v[|v| - 1])) }

  predicate Plain(v: Text) { NotQuotedBy(v, IsDouble) && NotQuotedBy(v, IsSingle) }

  lemma {:induction false} StripLeftShorter(s: Text, drop: char -> bool)
    ensures |StripLeft(s, drop)| <= |s|
    ensures |StripLeft(s, drop)| == |s| <==> s == [] || !drop(s[0])
    ensures |StripLeft(s, drop)| == |s| ==> StripLeft(s, drop) == s
  {
    if s != [] && drop(s[0]) { StripLeftShorter(s[1..], drop); }
  }

  lemma {:induction false} StripRightShorter(s: Text, drop: char -> bool)
    ensures |StripRight(s, drop)| <= |s|
    ensures |StripRight(s, drop)| == |s| <==> s == [] || !drop(s[|s| - 1])
    ensures |StripRight(s, drop)| == |s| ==> StripRight(s, drop) == s
  {
    if s != [] && drop(s[|s| - 1]) { StripRightShorter(s[..|s| - 1], drop); }
  }

  /** strip never lengthens, and changes exactly the strings that carry a
      dropped character at an end. */
  lemma StripShorter(s: Text, drop: char -> bool)
    ensures |StripWhere(s, drop)| <= |s|
    ensures StripWhere(s, drop) == s <==> NotQuotedBy(s, drop)
    ensures |StripWhere(s, drop)| == |s| ==> StripWhere(s, drop) == s
  {
    StripLeftShorter(s, drop);
    StripRightShorter(StripLeft(s, drop), drop);
  }

  lemma {:induction false} StripLeftFront(s: Text, drop: char -> bool, n: nat)
    requires n <= |s| && forall i :: 0 <= i < n ==> drop(s[i])
    ensures StripLeft(s, drop) == StripLeft(s[n..], drop)
  {
    if n > 0 {
      StripLeftFront(s[1..], drop, n - 1);
      assert s[1..][n - 1..] == s[n..];
    }
  }

  /** Stripping a quoted value strips the value itself. */
  lemma StripQuoted(v: Text)
    ensures StripWhere(Quoted(v), IsDouble) == StripWhere(v, IsDouble)
  {
    var s := Quoted(v);
    assert s[1..] == v + ['"'];
    StripLeftThenRight(v);
  }

  lemma {:induction false} StripLeftThenRight(v: Text)
    ensures StripWhere(v + ['"'], IsDouble) == StripWhere(v, IsDouble)
  {
    if v == [] {
      assert v + ['"'] == ['"'] && ['"'][1..] == [];
    } else if IsDouble(v[0]) {
      assert (v + ['"'])[1..] == v[1..] + ['"'];
      StripLeftThenRight(v[1..]);
    } else {
      assert (v + ['"'])[..|v|] == v;
    }
  }

  /** What reading returns of a value that was written. */
  function Kept(v: Text): Text { Unquote(Quoted(v)) }

  /** The value part of a written line reads back as the value exactly when the
      value has no quote character, of either kind, at either end. */
  lemma UnquoteInvertsIffPlain(v: Text)
    ensures Kept(v) == v <==> Plain(v)
  {
    var s := Quoted(v);
    StripShorter(s, IsSpace);
    assert NotQuotedBy(s, IsSpace);
    StripQuoted(v);
    var inner := StripWhere(v, IsDouble);
    StripShorter(v, IsDouble);
    StripShorter(inner, IsSingle);
  }

  // ---- Lines have no breaks ----

  lemma {:induction false} SplitNoBreaks(t: Text)
    ensures AllWhole(SplitLines(t))
    decreases |t|
  {
    if t != [] {
      var n := LineLength(t);
      if n == |t| {
        assert t[..n] == t;
        WholeCons(t[..n], []);
      } else {
        SplitNoBreaks(BehindBreak(t, n));
        WholeCons(t[..n], SplitLines(BehindBreak(t, n)));
      }
    }
  }

  predicate AllWhole(lines: seq<Text>) { forall l :: l in lines ==> NoBreaks(l) }

  lemma WholeCons(line: Text, lines: seq<Text>)
    requires NoBreaks(line) && AllWhole(lines)
    ensures AllWhole([line] + lines)
  {
  }

  lemma LinesNoBreaks(file: Option<Text>)
    ensures AllWhole(Lines(file))
  {
    if file.Some? { SplitNoBreaks(file.value); }
  }

  lemma {:induction false} StripLeftPart(s: Text, drop: char -> bool)
    ensures var r := StripLeft(s, drop); |r| <= |s| && s[|s| - |r|..] == r && (r == [] || !drop(r[0]))
  {
    if s != [] && drop(s[0]) { StripLeftPart(s[1..], drop); }
  }

  lemma {:induction false} StripRightPart(s: Text, drop: char -> bool)
    ensures var r := StripRight(s, drop); |r| <= |s| && s[..|r|] == r
  {
    if s != [] && drop(s[|s| - 1]) { StripRightPart(s[..|s| - 1], drop); }
  }

  /** strip keeps a part of the text, which does not start with a dropped character. */
  lemma StripPart(s: Text, drop: char -> bool)
    ensures var r := StripWhere(s, drop);
            (NoBreaks(s) ==> NoBreaks(r)) && (r == [] || !drop(r[0]))
  {
    var l := StripLeft(s, drop);
    var r := StripRight(l, drop);
    StripLeftPart(s, drop);
    StripRightPart(l, drop);
    if NoBreaks(s) {
      forall i | 0 <= i < |r| ensures !IsLineBreak(r[i]) {
        assert r[i] == l[i] == s[|s| - |l| + i];
      }
    }
  }

  lemma UnquoteNoBreaks(s: Text)
    requires NoBreaks(s)
    ensures NoBreaks(Unquote(s))
  {
    StripPart(s, IsSpace);
    var a := StripWhere(s, IsSpace);
    StripPart(a, IsDouble);
    StripPart(StripWhere(a, IsDouble), IsSingle);
  }

  /** Whatever the file, a value that is read has no line break in it. */
  lemma {:induction false} ReadNoBreaks(lines: seq<Text>, key: Text)
    requires AllWhole(lines)
    ensures NoBreaks(ReadLines(lines, key))
  {
    if lines != [] {
      var line := StripWhere(lines[0], IsSpace);
      StripPart(lines[0], IsSpace);
      if Assigns(lines[0], key) {
        assert NoBreaks(line[|key| + 1..]);
        UnquoteNoBreaks(line[|key| + 1..]);
      } else {
        ReadNoBreaks(lines[1..], key);
      }
    }
  }

  // ---- One line ----

  /** A key a line can be read for: no line break, no white space in front. */
  predicate Readable(key: Text) { NoBreaks(key) && (key == [] || !IsSpace(key[0])) }

  /** No line is read for any other key. */
  lemma UnreadableIsNeverRead(line: Text, key: Text)
    requires NoBreaks(line) && !Readable(key)
    ensures !Assigns(line, key)
  {
    var r := StripWhere(line, IsSpace);
    StripPart(line, IsSpace);
    if StartsWith(r, key + ['=']) {
      forall i | 0 <= i < |key| ensures key[i] == r[i] { assert r[..|key| + 1][i] == (key + ['='])[i]; }
      assert false;
    }
  }

  lemma {:induction false} StripRightKeeps(s: Text, n: nat)
    requires n < |s| && !IsSpace(s[n])
    ensures |StripRight(s, IsSpace)| > n && StripRight(s, IsSpace)[..n + 1] == s[..n + 1]
  {
    if IsSpace(s[|s| - 1]) {
      StripRightKeeps(s[..|s| - 1], n);
      assert s[..|s| - 1][..n + 1] == s[..n + 1];
    }
  }

  /** A line the writer finds for a readable key, the reader finds too. */
  lemma StartAssigns(line: Text, key: Text)
    requires Readable(key) && StartsWith(line, key + ['='])
    ensures Assigns(line, key)
  {
    assert line[0] == (key + ['='])[0] && line[|key|] == (key + ['='])[|key|];
    assert StripLeft(line, IsSpace) == line;
    StripRightKeeps(line, |key|);
  }

  /** Only keys of which one is the other and '=' and more share a line. */
  lemma SharedLine(line: Text, key: Text, other: Text)
    requires StartsWith(line, key + ['=']) && StartsWith(line, other + ['='])
    ensures key == other || StartsWith(key, other + ['=']) || StartsWith(other, key + ['='])
  {
    var a, b := key + ['='], other + ['='];
    if |key| == |other| {
      assert key == a[..|key|] == b[..|key|] == other;
    } else if |key| > |other| {
      assert key[..|b|] == a[..|b|] == line[..|b|] == b;
    } else {
      assert other[..|a|] == b[..|a|] == line[..|a|] == a;
    }
  }

  /** Whose line a written line is: exactly the key's own, a key's of which this
      one is an extension, or a key's that continues into the value. */
  lemma KeyPrefix(key: Text, rest: Text, other: Text)
    ensures StartsWith(key + ['='] + rest, other + ['=']) <==>
              || other == key
              || StartsWith(key, other + ['='])
              || (StartsWith(other, key + ['=']) && StartsWith(rest, other[|key| + 1..] + ['=']))
    ensures '=' !in key && '=' !in other ==> (StartsWith(key + ['='] + rest, other + ['=']) <==> other == key)
  {
    var line, own := key + ['='] + rest, key + ['='];
    assert StartsWith(line, own) by { assert line[..|own|] == own; }
    if StartsWith(line, other + ['=']) { SharedLine(line, key, other); }
    if StartsWith(key, other + ['=']) {
      assert line[..|other| + 1] == key[..|other| + 1];
      assert key[|other|] == (other + ['='])[|other|] == '=';
    }
    if StartsWith(other, own) {
      var more := other[|own|..] + ['='];
      assert other + ['='] == own + more;
      assert other[|key|] == own[|key|] == '=';
      SamePrefix(own, rest, more);
    }
  }

  lemma SamePrefix(front: Text, rest: Text, more: Text)
    ensures StartsWith(front + rest, front + more) <==> StartsWith(rest, more)
  {
    if |more| <= |rest| {
      assert (front + rest)[..|front + more|] == front + rest[..|more|];
      assert (front + rest[..|more|])[|front|..] == rest[..|more|] && (front + more)[|front|..] == more;
    }
  }

  lemma AssignmentShape(key: Text, value: Text)
    requires Readable(key) && NoBreaks(value)
    ensures NoBreaks(Assignment(key, value))
    ensures StripWhere(Assignment(key, value), IsSpace) == Assignment(key, value)
    ensures StartsWith(Assignment(key, value), key + ['='])
    ensures Assignment(key, value)[|key| + 1..] == Quoted(value)
  {
    var line := Assignment(key, value);
    assert line[0] == if key == [] then '=' else key[0];
    StripShorter(line, IsSpace);
    assert line[..|key| + 1] == key + ['='];
  }

  // ---- Lines written by hand ----

  lemma {:induction false} StripRightBack(s: Text, drop: char -> bool, n: nat)
    requires n <= |s| && forall i :: n <= i < |s| ==> drop(s[i])
    ensures StripRight(s, drop) == StripRight(s[..n], drop)
    decreases |s|
  {
    if n < |s| {
      StripRightBack(s[..|s| - 1], drop, n);
      assert s[..|s| - 1][..n] == s[..n];
    } else {
      assert s[..n] == s;
    }
  }

  /** Blanks and tabs only. */
  predicate Blank(s: Text) { forall i :: 0 <= i < |s| ==> s[i] == ' ' || s[i] == '\t' }

  /** strip takes off padding, and nothing of a text that has none. */
  lemma StripPadded(pad: Text, s: Text, trail: Text)
    requires Blank(pad) && Blank(trail) && NotQuotedBy(s, IsSpace)
    ensures StripWhere(pad + s + trail, IsSpace) == s
  {
    var all := pad + s + trail;
    StripLeftFront(all, IsSpace, |pad|);
    assert all[|pad|..] == s + trail;
    if s == [] {
      assert s + trail == trail;
      StripLeftFront(trail, IsSpace, |trail|);
      assert StripLeft(all, IsSpace) == [];
    } else {
      assert StripLeft(s + trail, IsSpace) == s + trail;
      StripRightBack(s + trail, IsSpace, |s|);
      assert (s + trail)[..|s|] == s;
      StripRightShorter(s, IsSpace);
    }
  }

  /** Neither white space nor a quote character at an end. */
  predicate Bare(v: Text) { v != [] && NotQuotedBy(v, IsSpace) && Plain(v) }

  /** A bare value is unquoted to itself: padded or not, and without quotes, in
      double quotes or in single quotes. */
  lemma UnquoteForms(pad: Text, quote: Text, v: Text, trail: Text)
    requires Blank(pad) && Blank(trail) && Bare(v) && quote in {"", "\"", "'"}
    ensures Unquote(pad + (quote + v + quote) + trail) == v
  {
    var text := quote + v + quote;
    assert NotQuotedBy(text, IsSpace);
    StripPadded(pad, text, trail);
    StripShorter(v, IsDouble);
    StripShorter(v, IsSingle);
    if quote == "\"" {
      assert text == Quoted(v);
      StripQuoted(v);
    } else if quote == "'" {
      StripShorter(text, IsDouble);
      StripSingle(v);
    } else {
      assert text == v;
    }
  }

  lemma StripSingle(v: Text)
    requires Bare(v)
    ensures StripWhere(['\''] + v + ['\''], IsSingle) == v
  {
    var s := ['\''] + v + ['\''];
    assert s[1..] == v + ['\''];
    assert StripLeft(v + ['\''], IsSingle) == v + ['\''];
    StripRightBack(v + ['\''], IsSingle, |v|);
    assert (v + ['\''])[..|v|] == v;
    StripRightShorter(v, IsSingle);
  }

  /** A line as somebody may write it: indented, with blanks behind the '=' and
      at the end, the value in quotes or not. As the first line for its key it
      is read as the value. */
  lemma HandWrittenLine(indent: Text, key: Text, pad: Text, quote: Text, v: Text, trail: Text, rest: Text)
    requires Readable(key) && Blank(indent) && Blank(pad) && Blank(trail)
    requires Bare(v) && NoBreaks(v) && quote in {"", "\"", "'"}
    ensures Read(Some(indent + (key + "=" + pad + (quote + v + quote)) + trail + "\n" + rest), key) == v
  {
    var text := quote + v + quote;
    var body := key + "=" + pad + text;
    var line := indent + body + trail;
    assert body[0] == if key == [] then '=' else key[0];
    assert body[|body| - 1] == text[|text| - 1];
    StripPadded(indent, body, trail);
    assert body == key + ['='] + (pad + text);
    assert body[..|key| + 1] == key + ['='] && body[|key| + 1..] == pad + text;
    assert Assigns(line, key);
    WholeLine(indent, key, pad, quote, v, trail);
    SplitAtBreak(line, "\n", rest);
    assert line + "\n" + rest == indent + (key + "=" + pad + text) + trail + "\n" + rest;
    assert ([line] + SplitLines(rest))[0] == line;
    UnquoteForms(pad, quote, v, []);
    assert pad + text + [] == pad + text;
  }

  lemma WholeLine(indent: Text, key: Text, pad: Text, quote: Text, v: Text, trail: Text)
    requires NoBreaks(key) && Blank(indent) && Blank(pad) && Blank(trail)
    requires NoBreaks(v) && quote in {"", "\"", "'"}
    ensures NoBreaks(indent + (key + "=" + pad + (quote + v + quote)) + trail)
  {
    assert NoBreaks(quote);
    Whole(quote, v);
    Whole(quote + v, quote);
    Whole(key, "=");
    Whole(key + "=", pad);
    Whole(key + "=" + pad, quote + v + quote);
    Whole(indent, key + "=" + pad + (quote + v + quote));
    Whole(indent + (key + "=" + pad + (quote + v + quote)), trail);
  }

  lemma Whole(a: Text, b: Text)
    requires NoBreaks(a) && NoBreaks(b)
    ensures NoBreaks(a + b)
  {
  }

  // ---- A write and the read after it, in any file ----

  predicate Assigned(lines: seq<Text>, key: Text) { exists l :: l in lines && Assigns(l, key) }

  /** A line the reader takes for the key and the writer does not: an indented one. */
  predicate Shadowed(lines: seq<Text>, key: Text) {
    exists l :: l in lines && Assigns(l, key) && !StartsWith(l, key + ['='])
  }

  lemma ShadowedIsKept(lines: seq<Text>, key: Text)
    ensures Shadowed(lines, key) <==> Assigned(OtherLines(lines, key), key)
  {
  }

  lemma {:induction false} UnassignedReadsEmpty(lines: seq<Text>, key: Text)
    requires !Assigned(lines, key)
    ensures ReadLines(lines, key) == []
  {
    if lines != [] {
      assert lines[0] in lines;
      UnassignedReadsEmpty(lines[1..], key);
    }
  }

  lemma {:induction false} ReadAppended(lines: seq<Text>, line: Text, key: Text)
    ensures ReadLines(lines + [line], key) ==
              if Assigned(lines, key) then ReadLines(lines, key) else ReadLines([line], key)
  {
    if lines == [] {
      assert lines + [line] == [line];
    } else {
      assert (lines + [line])[0] == lines[0] && (lines + [line])[1..] == lines[1..] + [line];
      assert forall l :: l in lines <==> l == lines[0] || l in lines[1..];
      ReadAppended(lines[1..], line, key);
    }
  }

  lemma ReadOwnLine(key: Text, value: Text)
    requires Readable(key) && NoBreaks(value)
    ensures ReadLines([Assignment(key, value)], key) == Kept(value)
  {
    AssignmentShape(key, value);
  }

  lemma AssignmentNoBreaks(key: Text, value: Text)
    requires NoBreaks(key) && NoBreaks(value)
    ensures NoBreaks(Assignment(key, value))
  {
    assert NoBreaks(Quoted(value));
  }

  lemma WrittenLines(file: Option<Text>, key: Text, value: Text)
    requires NoBreaks(key) && NoBreaks(value)
    ensures Lines(Written(file, key, value)) == OtherLines(Lines(file), key) + [Assignment(key, value)]
  {
    LinesNoBreaks(file);
    AssignmentNoBreaks(key, value);
    var kept := OtherLines(Lines(file), key);
    var all := kept + [Assignment(key, value)];
    forall i | 0 <= i < |all| ensures NoBreaks(all[i]) {
      if i < |kept| { assert all[i] in kept; }
    }
    SplitJoin(all);
  }

  lemma WrittenMembers(file: Option<Text>, key: Text, value: Text)
    requires NoBreaks(key) && NoBreaks(value)
    ensures LineMoved(Lines(file), Lines(Written(file, key, value)), key, Assignment(key, value))
  {
    WrittenLines(file, key, value);
    var kept := OtherLines(Lines(file), key);
    assert (kept + [Assignment(key, value)])[..|kept|] == kept;
  }

  lemma RemovedLines(file: Option<Text>, key: Text)
    ensures var kept := OtherLines(Lines(file), key);
            Lines(Removed(file, key)) == if file.Some? && kept == [] then [[]] else kept
  {
    LinesNoBreaks(file);
    var kept := OtherLines(Lines(file), key);
    forall i | 0 <= i < |kept| ensures NoBreaks(kept[i]) { assert kept[i] in kept; }
    SplitJoin(kept);
  }

  /** What a write leaves to be read, in any file: the first line that shadows
      the key, or else what the quotes keep of the value. */
  lemma ReadAfterWrite(file: Option<Text>, key: Text, value: Text)
    requires Readable(key) && NoBreaks(value)
    ensures var kept := OtherLines(Lines(file), key);
            Read(Written(file, key, value), key) ==
              if Shadowed(Lines(file), key) then ReadLines(kept, key) else Kept(value)
  {
    WrittenLines(file, key, value);
    ShadowedIsKept(Lines(file), key);
    ReadAppended(OtherLines(Lines(file), key), Assignment(key, value), key);
    ReadOwnLine(key, value);
  }

  lemma {:induction false} ReadUnreadable(lines: seq<Text>, key: Text)
    requires !Readable(key) && AllWhole(lines)
    ensures ReadLines(lines, key) == []
  {
    if lines != [] {
      UnreadableIsNeverRead(lines[0], key);
      ReadUnreadable(lines[1..], key);
    }
  }

  /** Exactly when a write is read back: for every file, key and value. */
  lemma WriteReadIff(file: Option<Text>, key: Text, value: Text)
    ensures Read(Written(file, key, value), key) == value <==>
              if !Readable(key) then value == []
              else if Shadowed(Lines(file), key) then ReadLines(OtherLines(Lines(file), key), key) == value
              else NoBreaks(value) && Plain(value)
  {
    var after := Written(file, key, value);
    LinesNoBreaks(file);
    LinesNoBreaks(after);
    if !Readable(key) {
      ReadUnreadable(Lines(after), key);
    } else if NoBreaks(value) {
      ReadAfterWrite(file, key, value);
      UnquoteInvertsIffPlain(value);
    } else {
      ReadNoBreaks(Lines(after), key);
      ReadNoBreaks(OtherLines(Lines(file), key), key);
    }
  }

  /** In a file, every value without line breaks and end quotes is read back
      exactly if the key is readable and no indented line shadows it. */
  lemma PlainValuesSurviveIff(file: Option<Text>, key: Text)
    ensures (forall value :: NoBreaks(value) && Plain(value) ==> Read(Written(file, key, value), key) == value) <==>
              Readable(key) && !Shadowed(Lines(file), key)
  {
    forall value ensures NoBreaks(value) && Plain(value) ==>
                           (Read(Written(file, key, value), key) == value <==>
                              if !Readable(key) then value == []
                              else !Shadowed(Lines(file), key) || ReadLines(OtherLines(Lines(file), key), key) == value)
    {
      WriteReadIff(file, key, value);
    }
    assert NoBreaks("x") && Plain("x") && NoBreaks("y") && Plain("y") && "x" != "y";
  }

  /** An indented line beats every write: the value it gives is read for ever. */
  lemma IndentedLineShadows(value: Text)
    requires NoBreaks(value)
    ensures Read(Written(Some(" K=old\n"), "K", value), "K") == "old"
  {
    IndentedLine();
    assert " K=old" in Lines(Some(" K=old\n"));
    ReadAfterWrite(Some(" K=old\n"), "K", value);
  }

  lemma IndentedLine()
    ensures Lines(Some(" K=old\n")) == [" K=old"]
    ensures Assigns(" K=old", "K") && !StartsWith(" K=old", "K" + ['='])
    ensures OtherLines([" K=old"], "K") == [" K=old"]
    ensures ReadLines([" K=old"], "K") == "old"
  {
    var line := " K=old";
    assert line + ['\n'] + [] == " K=old\n";
    SplitFirst(line, []);
    IndentedLineStripped();
    assert "K" + ['='] == "K=" && "K=old"[..2] == "K=" && line[0] != "K="[0];
    assert [line][1..] == [];
    assert OtherLines([], "K") == [];
    assert "K=old"[2..] == "old";
    UnquoteOld();
  }

  lemma IndentedLineStripped()
    ensures StripWhere(" K=old", IsSpace) == "K=old"
  {
    var line := " K=old";
    assert line[1..] == "K=old";
    assert StripLeft(line, IsSpace) == StripLeft("K=old", IsSpace) == "K=old";
  }

  lemma UnquoteOld()
    ensures Unquote("old") == "old"
  {
    StripShorter("old", IsSpace);
    StripShorter("old", IsDouble);
    StripShorter("old", IsSingle);
  }

  // ---- The file as a map ----

  datatype Op = Write(key: Text, value: Text) | Remove(key: Text)

  function Apply(file: Option<Text>, op: Op): Option<Text> {
    match op
    case Write(key, value) => Written(file, key, value)
    case Remove(key) => Removed(file, key)
  }

  function ApplyAll(file: Option<Text>, ops: seq<Op>): Option<Text> {
    if ops == [] then file else Apply(ApplyAll(file, ops[..|ops| - 1]), ops[|ops| - 1])
  }

  /** The map the file stands for: the last value written to the key since it
      was last removed, the empty string if there is none; and what was there
      before if the key was neither written nor removed. */
  function LastValue(initial: Text, ops: seq<Op>, key: Text): Text {
    if ops == [] then initial
    else
      var last := ops[|ops| - 1];
      if last.key != key then LastValue(initial, ops[..|ops| - 1], key)
      else if last.Write? then last.value else []
  }

  /** Operations on these keys, with values that survive a write. */
  predicate OpsOn(ops: seq<Op>, keys: Text -> bool) {
    forall i :: 0 <= i < |ops| ==>
      keys(ops[i].key) && (ops[i].Write? ==> NoBreaks(ops[i].value) && Plain(ops[i].value))
  }

  /** Keys can be read, and none of them is another one, '=' and more. */
  ghost predicate KeysApart(keys: Text -> bool) {
    && (forall k :: keys(k) ==> Readable(k))
    && (forall k, o :: keys(k) && keys(o) ==> !StartsWith(k, o + ['=']))
  }

  /** Lines the reader takes for a key. */
  function Count(lines: seq<Text>, key: Text): nat {
    if lines == [] then 0 else (if Assigns(lines[0], key) then 1 else 0) + Count(lines[1..], key)
  }

  lemma {:induction false} CountAppended(lines: seq<Text>, line: Text, key: Text)
    ensures Count(lines + [line], key) == Count(lines, key) + if Assigns(line, key) then 1 else 0
  {
    if lines == [] {
      assert lines + [line] == [line];
    } else {
      assert (lines + [line])[0] == lines[0] && (lines + [line])[1..] == lines[1..] + [line];
      CountAppended(lines[1..], line, key);
    }
  }

  /** Two keys that are apart: a line written or removed for one is not the other's. */
  predicate Apart(key: Text, other: Text) {
    key != other && !StartsWith(key, other + ['=']) && !StartsWith(other, key + ['='])
  }

  lemma NotTheOthers(line: Text, key: Text, other: Text)
    requires Readable(key) && Apart(key, other) && StartsWith(line, key + ['='])
    ensures !Assigns(line, other)
  {
    StartAssigns(line, key);
    if Assigns(line, other) { SharedLine(StripWhere(line, IsSpace), key, other); }
  }

  /** Dropping a key's lines leaves nothing of it, if nothing shadows it, and
      does nothing to a key apart from it. */
  lemma {:induction false} DroppedLines(lines: seq<Text>, key: Text, probe: Text)
    requires Readable(key) && (if probe == key then !Shadowed(lines, key) else Apart(key, probe))
    ensures ReadLines(OtherLines(lines, key), probe) == if probe == key then [] else ReadLines(lines, probe)
    ensures Count(OtherLines(lines, key), probe) == if probe == key then 0 else Count(lines, probe)
  {
    if lines != [] {
      var head, tail := lines[0], lines[1..];
      assert forall l :: l in tail ==> l in lines;
      DroppedLines(tail, key, probe);
      if StartsWith(head, key + ['=']) {
        if probe != key { NotTheOthers(head, key, probe); }
      } else {
        assert head in lines;
        assert ([head] + OtherLines(tail, key))[1..] == OtherLines(tail, key);
      }
    }
  }

  lemma BlankLine(key: Text)
    ensures !Assigns([], key) && ReadLines([[]], key) == [] && Count([[]], key) == 0
  {
    assert |key + ['=']| > 0;
    var blank: seq<Text> := [[]];
    assert blank[1..] == [];
  }

  lemma WriteEffect(file: Option<Text>, key: Text, value: Text, probe: Text)
    requires Readable(key) && NoBreaks(value) && !Shadowed(Lines(file), probe)
    requires probe != key ==> Apart(key, probe)
    ensures var after := Written(file, key, value);
            && !Shadowed(Lines(after), probe)
            && Read(after, probe) == (if probe == key then Kept(value) else Read(file, probe))
            && Count(Lines(after), probe) == if probe == key then 1 else Count(Lines(file), probe)
  {
    var kept, line := OtherLines(Lines(file), key), Assignment(key, value);
    WrittenLines(file, key, value);
    AssignmentShape(key, value);
    DroppedLines(Lines(file), key, probe);
    ReadAppended(kept, line, probe);
    CountAppended(kept, line, probe);
    if probe == key {
      ReadOwnLine(key, value);
      ShadowedIsKept(Lines(file), key);
      StartAssigns(line, key);
    } else {
      NotTheOthers(line, key, probe);
      ReadUnaffected(kept, line, probe);
    }
  }

  lemma ReadUnaffected(lines: seq<Text>, line: Text, probe: Text)
    requires !Assigns(line, probe)
    ensures ReadLines(lines + [line], probe) == ReadLines(lines, probe)
  {
    ReadAppended(lines, line, probe);
    if !Assigned(lines, probe) {
      UnassignedReadsEmpty(lines, probe);
      UnassignedReadsEmpty([line], probe);
    }
  }

  lemma RemoveEffect(file: Option<Text>, key: Text, probe: Text)
    requires Readable(key) && !Shadowed(Lines(file), probe)
    requires probe != key ==> Apart(key, probe)
    ensures var after := Removed(file, key);
            && !Shadowed(Lines(after), probe)
            && Read(after, probe) == (if probe == key then [] else Read(file, probe))
            && Count(Lines(after), probe) == if probe == key then 0 else Count(Lines(file), probe)
  {
    RemovedLines(file, key);
    DroppedLines(Lines(file), key, probe);
    BlankLine(probe);
  }

  /** The map law: after any sequence of writes and removes a key reads as its
      last written value, or as the empty string if it was removed since; and
      it never gets a second line. In a missing file it starts out empty. */
  lemma {:induction false} FileIsMap(file: Option<Text>, ops: seq<Op>, keys: Text -> bool, probe: Text)
    requires KeysApart(keys) && OpsOn(ops, keys) && keys(probe)
    requires !Shadowed(Lines(file), probe)
    ensures Read(ApplyAll(file, ops), probe) == LastValue(Read(file, probe), ops, probe)
    ensures Count(Lines(file), probe) <= 1 ==> Count(Lines(ApplyAll(file, ops)), probe) <= 1
    ensures !Shadowed(Lines(ApplyAll(file, ops)), probe)
    ensures file == None ==> Read(file, probe) == [] && Count(Lines(file), probe) == 0
  {
    if ops != [] {
      var front, last := ops[..|ops| - 1], ops[|ops| - 1];
      FileIsMap(file, front, keys, probe);
      assert probe != last.key ==> Apart(last.key, probe);
      match last
      case Write(key, value) =>
        WriteEffect(ApplyAll(file, front), key, value, probe);
        UnquoteInvertsIffPlain(value);
      case Remove(key) =>
        RemoveEffect(ApplyAll(file, front), key, probe);
    }
  }

  ghost predicate MapLaw(file: Option<Text>, keys: Text -> bool, ops: seq<Op>, probe: Text) {
    OpsOn(ops, keys) && keys(probe) ==> Read(ApplyAll(file, ops), probe) == LastValue(Read(file, probe), ops, probe)
  }

  ghost predicate BehavesAsMap(file: Option<Text>, keys: Text -> bool) {
    forall ops, probe :: MapLaw(file, keys, ops, probe)
  }

  lemma ApplyTwo(file: Option<Text>, op: Op, next: Op)
    ensures ApplyAll(file, [op]) == Apply(file, op)
    ensures ApplyAll(file, [op, next]) == Apply(Apply(file, op), next)
  {
    assert [op][..0] == [] && [op, next][..1] == [op];
    assert ApplyAll(file, []) == file;
  }

  lemma LastValueTwo(initial: Text, op: Op, next: Op, probe: Text)
    ensures LastValue(initial, [op], op.key) == if op.Write? then op.value else []
    ensures next.key != op.key ==> LastValue(initial, [op, next], op.key) == LastValue(initial, [op], op.key)
  {
    assert [op][..0] == [] && [op, next][..1] == [op];
  }

  /** The law needs every key readable and unshadowed ... */
  lemma MapNeedsReadable(file: Option<Text>, keys: Text -> bool, k: Text)
    requires BehavesAsMap(file, keys) && keys(k)
    ensures Readable(k) && !Shadowed(Lines(file), k)
  {
    forall value | NoBreaks(value) && Plain(value) ensures Read(Written(file, k, value), k) == value {
      var op := Write(k, value);
      ApplyTwo(file, op, op);
      LastValueTwo(Read(file, k), op, op, k);
      assert MapLaw(file, keys, [op], k);
    }
    PlainValuesSurviveIff(file, k);
  }

  lemma MapLawTwo(file: Option<Text>, keys: Text -> bool, op: Op, next: Op, k: Text)
    requires BehavesAsMap(file, keys) && keys(k) && OpsOn([op, next], keys)
    ensures Read(ApplyAll(file, [op, next]), k) == LastValue(Read(file, k), [op, next], k)
  {
    assert MapLaw(file, keys, [op, next], k);
  }

  lemma PlainLetters()
    ensures NoBreaks("x") && Plain("x") && NoBreaks("y") && Plain("y")
  {
  }

  lemma TwoWrites(keys: Text -> bool, k: Text, o: Text, v: Text, w: Text)
    requires keys(k) && keys(o) && NoBreaks(v) && Plain(v) && NoBreaks(w) && Plain(w)
    ensures OpsOn([Write(k, v), Write(o, w)], keys)
  {
  }

  lemma TwoWritesLaw(file: Option<Text>, keys: Text -> bool, k: Text, o: Text)
    requires BehavesAsMap(file, keys) && keys(k) && keys(o) && k != o
    ensures Read(Written(Written(file, k, "x"), o, "y"), k) == "x"
  {
    PlainLetters();
    TwoWrites(keys, k, o, "x", "y");
    ApplyTwo(file, Write(k, "x"), Write(o, "y"));
    LastValueTwo(Read(file, k), Write(k, "x"), Write(o, "y"), k);
    MapLawTwo(file, keys, Write(k, "x"), Write(o, "y"), k);
  }

  /** ... and apart: writing o removes the line of a key that is o, '=' and more. */
  lemma MapNeedsApart(file: Option<Text>, keys: Text -> bool, k: Text, o: Text)
    requires BehavesAsMap(file, keys) && keys(k) && keys(o)
    ensures !StartsWith(k, o + ['='])
  {
    MapNeedsReadable(file, keys, k);
    MapNeedsReadable(file, keys, o);
    if StartsWith(k, o + ['=']) {
      ExtensionIsLost(file, k, o);
      TwoWritesLaw(file, keys, k, o);
    }
  }

  lemma ExtensionStarts(line: Text, k: Text, o: Text)
    requires StartsWith(line, k + ['=']) && StartsWith(k, o + ['='])
    ensures StartsWith(line, o + ['='])
  {
    var n := |o| + 1;
    assert line[..n] == line[..|k| + 1][..n] == (k + ['='])[..n] == k[..n];
  }

  lemma NoEqualsNoKey(text: Text, key: Text)
    requires '=' !in text
    ensures !StartsWith(text, key + ['='])
  {
    if |key| < |text| { assert text[..|key| + 1][|key|] == text[|key|] != (key + ['='])[|key|]; }
  }

  lemma ExtensionIsLost(file: Option<Text>, k: Text, o: Text)
    requires Readable(k) && Readable(o) && StartsWith(k, o + ['=']) && !Shadowed(Lines(file), k)
    ensures Read(Written(Written(file, k, "x"), o, "y"), k) == []
  {
    WrittenLines(file, k, "x");
    WrittenLines(Written(file, k, "x"), o, "y");
    AssignmentShape(k, "x");
    ExtensionStarts(Assignment(k, "x"), k, o);
    ExtensionNotKept(Lines(file), Assignment(k, "x"), k, o);
    NotTheExtensions(k, o);
    var kept := OtherLines(OtherLines(Lines(file), k) + [Assignment(k, "x")], o);
    UnassignedReadsEmpty(kept + [Assignment(o, "y")], k);
  }

  lemma NotTheExtensions(k: Text, o: Text)
    requires Readable(o) && StartsWith(k, o + ['='])
    ensures !Assigns(Assignment(o, "y"), k)
  {
    AssignmentShape(o, "y");
    KeyPrefix(o, Quoted("y"), k);
    NoEqualsNoKey(Quoted("y"), k[|o| + 1..]);
    assert o == k || !StartsWith(o, k + ['=']);
  }

  lemma ExtensionNotKept(lines: seq<Text>, line: Text, k: Text, o: Text)
    requires !Shadowed(lines, k) && StartsWith(line, o + ['='])
    ensures !Assigned(OtherLines(OtherLines(lines, k) + [line], o), k)
  {
  }

  /** The exact condition: the file behaves as a map on a set of keys if and only
      if all are readable, none is another one with '=' and more behind it, and
      no line of the file shadows one. A missing file shadows none. */
  lemma MapIffKeysApart(file: Option<Text>, keys: Text -> bool)
    ensures BehavesAsMap(file, keys) <==> KeysApart(keys) && forall k :: keys(k) ==> !Shadowed(Lines(file), k)
    ensures BehavesAsMap(None, keys) <==> KeysApart(keys)
  {
    MapIff(file, keys);
    MapIff(None, keys);
  }

  lemma MapIff(file: Option<Text>, keys: Text -> bool)
    ensures BehavesAsMap(file, keys) <==> KeysApart(keys) && forall k :: keys(k) ==> !Shadowed(Lines(file), k)
  {
    if BehavesAsMap(file, keys) {
      forall k | keys(k) ensures Readable(k) && !Shadowed(Lines(file), k) { MapNeedsReadable(file, keys, k); }
      forall k, o | keys(k) && keys(o) ensures !StartsWith(k, o + ['=']) { MapNeedsApart(file, keys, k, o); }
    }
    if KeysApart(keys) && forall k :: keys(k) ==> !Shadowed(Lines(file), k) {
      forall ops, probe ensures MapLaw(file, keys, ops, probe) {
        if OpsOn(ops, keys) && keys(probe) { FileIsMap(file, ops, keys, probe); }
      }
    }
  }

  /** One more write to such a file is read back exactly when the value has no
      line break and no quote character, of either kind, at an end. */
  lemma WriteReadIffPlain(file: Option<Text>, ops: seq<Op>, keys: Text -> bool, key: Text, value: Text)
    requires KeysApart(keys) && OpsOn(ops, keys) && keys(key) && !Shadowed(Lines(file), key)
    ensures Read(Written(ApplyAll(file, ops), key, value), key) == value <==> NoBreaks(value) && Plain(value)
  {
    FileIsMap(file, ops, keys, key);
    WriteReadIff(ApplyAll(file, ops), key, value);
  }
}
