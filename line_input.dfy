/**
 * Reading text files line by line, as the skinning assignment (A2) does it with
 * std::ifstream, std::getline and std::stringstream.
 *
 * A file is the text it holds; an open stream is that text with a read position and the
 * end-of-file flag.  getline reads up to the next '\n' (consumed, not stored) and sets the
 * flag when it reaches the end of the text without finding one.  getNextValidLine
 * (Helpers.cpp) skips empty lines and '#' comments.  Reads with `>>` from a string stream
 * take whitespace-separated words; the conversion of a word to a number is a parameter.
 */
module LineInput {

  // ---- std::getline ----

  /** The index of the first '\n' at or after pos, or |text| when there is none. */
  function LineEnd(text: string, pos: int): (e: int)
    requires 0 <= pos <= |text|
    ensures pos <= e <= |text|
    ensures e < |text| ==> text[e] == '\n'
    ensures forall k :: pos <= k < e ==> text[k] != '\n'
    decreases |text| - pos
  {
    if pos == |text| || text[pos] == '\n' then pos else LineEnd(text, pos + 1)
  }

  /** What one getline returns: the line, the new read position and the end-of-file flag. */
  datatype Read = Read(line: string, pos: int, eof: bool)

  /** std::getline on a stream reading text at pos: the characters up to the next '\n', which
      is consumed; without one, the rest of the text and the end-of-file flag. */
  function GetLineAt(text: string, pos: int): (r: Read)
    requires 0 <= pos <= |text|
    ensures pos <= r.pos <= |text| && (r.eof ==> r.pos == |text|) && (!r.eof ==> pos < r.pos)
    ensures forall k :: 0 <= k < |r.line| ==> r.line[k] != '\n'
    ensures text[pos..r.pos] == r.line + (if r.eof then "" else "\n")
  {
    var e := LineEnd(text, pos);
    if e < |text| then Read(text[pos..e], e + 1, false) else Read(text[pos..], |text|, true)
  }

  /** The lines successive getline calls return from pos on, up to the one that sets the
      end-of-file flag (an empty one when the text ends with '\n'). */
  function Lines(text: string, pos: int): (ls: seq<string>)
    requires 0 <= pos <= |text|
    ensures |ls| >= 1
    decreases |text| - pos
  {
    var r := GetLineAt(text, pos);
    if r.eof then [r.line] else [r.line] + Lines(text, r.pos)
  }

  /** Lines joined by '\n'. */
  function Join(ls: seq<string>): string
  {
    if |ls| == 0 then "" else if |ls| == 1 then ls[0] else ls[0] + "\n" + Join(ls[1..])
  }

  /** Reading a text line by line loses nothing: the lines, joined again, are the text. */
  lemma {:induction false} LinesJoin(text: string, pos: int)
    requires 0 <= pos <= |text|
    ensures Join(Lines(text, pos)) == text[pos..]
    decreases |text| - pos
  {
    var r := GetLineAt(text, pos);
    if !r.eof {
      LinesJoin(text, r.pos);
      var rest := Lines(text, r.pos);
      assert Lines(text, pos) == [r.line] + rest;
      assert Join([r.line] + rest) == r.line + "\n" + Join(rest) by {
        assert ([r.line] + rest)[1..] == rest;
      }
      assert text[pos..] == text[pos..r.pos] + text[r.pos..];
    }
  }

  // ---- getNextValidLine (Helpers.cpp) ----

  /** A line getNextValidLine accepts: non-empty and not a '#' comment. */
  predicate IsValidLine(line: string)
  {
    |line| > 0 && line[0] != '#'
  }

  /** The outcome of getNextValidLine: the line with the stream state after it, or the end of
      the file reached with no valid line left (the source then aborts). */
  datatype Scan = Found(line: string, pos: int, eof: bool) | Exhausted

  /** The scan after one getline has returned r: stop at a valid line (even one that set the
      end-of-file flag), give up at the end of the file, read on otherwise. */
  function ScanFrom(text: string, r: Read): Scan
    requires 0 <= r.pos <= |text|
  {
    if IsValidLine(r.line) then Found(r.line, r.pos, r.eof)
    else if r.eof then Exhausted
    else NextValidLine(text, r.pos)
  }

  /** getNextValidLine on a stream reading text at pos. */
  function NextValidLine(text: string, pos: int): Scan
    requires 0 <= pos <= |text|
    decreases |text| - pos
  {
    var r := GetLineAt(text, pos);
    if IsValidLine(r.line) then Found(r.line, r.pos, r.eof)
    else if r.eof then Exhausted
    else NextValidLine(text, r.pos)
  }

  /** The valid lines of a list of lines, in order. */
  function ValidLines(ls: seq<string>): (vs: seq<string>)
    ensures forall k :: 0 <= k < |vs| ==> IsValidLine(vs[k])
  {
    if |ls| == 0 then []
    else if IsValidLine(ls[0]) then [ls[0]] + ValidLines(ls[1..])
    else ValidLines(ls[1..])
  }

  /** getNextValidLine returns the first valid line left in the file and aborts exactly when
      there is none; the stream is left just after the returned line, so the valid lines left
      after it are the rest of those left before it: successive calls return the successive
      valid lines. */
  lemma {:induction false} NextValidLineIsFirst(text: string, pos: int)
    requires 0 <= pos <= |text|
    ensures var s := NextValidLine(text, pos);
      var vs := ValidLines(Lines(text, pos));
      (s.Exhausted? <==> vs == [])
      && (s.Found? ==> 0 <= s.pos <= |text| && s.line == vs[0] && ValidLines(Lines(text, s.pos)) == vs[1..])
    decreases |text| - pos
  {
    var r := GetLineAt(text, pos);
    var ls := Lines(text, pos);
    if !r.eof {
      NextValidLineIsFirst(text, r.pos);
      assert ls[1..] == Lines(text, r.pos);
    } else {
      assert ls == [r.line];
      assert ls[1..] == [];
      if IsValidLine(r.line) {
        var after := GetLineAt(text, r.pos);
        assert after.line == "" && after.eof;
        assert Lines(text, r.pos) == [""];
        assert ValidLines([""]) == ValidLines([""][1..]);
      }
    }
  }

  /** A valid last line without a trailing '\n' is still returned, with the end-of-file flag
      set. */
  lemma LastLineWithoutNewline()
    ensures NextValidLine("#\n\nab", 0) == Found("ab", 5, true)
  {
    var text := "#\n\nab";
    LineEndAt(text, 0, 1);
    LineEndAt(text, 3, 5);
    assert GetLineAt(text, 0) == Read("#", 2, false);
    assert GetLineAt(text, 2) == Read("", 3, false);
    assert GetLineAt(text, 3) == Read("ab", 5, true);
  }

  /** LineEnd is the first '\n' at or after pos. */
  lemma {:induction false} LineEndAt(text: string, pos: int, e: int)
    requires 0 <= pos <= e <= |text|
    requires e < |text| ==> text[e] == '\n'
    requires forall k :: pos <= k < e ==> text[k] != '\n'
    ensures LineEnd(text, pos) == e
    decreases e - pos
  {
    if pos < e {
      LineEndAt(text, pos + 1, e);
    }
  }

  /** An open input file stream: the text of the file, the read position and the end-of-file
      flag. */
  class InStream {
    const text: string
    var pos: int
    var eof: bool

    ghost predicate Valid()
      reads this
    {
      0 <= pos <= |text| && (eof ==> pos == |text|)
    }

    /** A stream opened on a file holding text. */
    constructor (text: string)
      ensures Valid() && this.text == text && pos == 0 && !eof
    {
      this.text := text;
      pos := 0;
      eof := false;
    }

    /** std::getline(in, line). */
    method GetLine() returns (line: string)
      requires Valid()
      modifies this
      ensures Valid() && Read(line, pos, eof) == GetLineAt(text, old(pos))
    {
      var r := GetLineAt(text, pos);
      line, pos, eof := r.line, r.pos, r.eof;
    }
  }

  /** getNextValidLine: ok is false where the source aborts. */
  method GetNextValidLine(input: InStream) returns (line: string, ok: bool)
    requires input.Valid()
    modifies input
    ensures input.Valid()
    ensures var s := NextValidLine(input.text, old(input.pos));
      (ok <==> s.Found?) && (ok ==> s == Found(line, input.pos, input.eof))
  {
    ghost var start := input.pos;
    line := input.GetLine();
    while !input.eof && !IsValidLine(line)
      invariant input.Valid()
      invariant NextValidLine(input.text, start) == ScanFrom(input.text, Read(line, input.pos, input.eof))
      decreases |input.text| - input.pos, if input.eof then 0 else 1
    {
      line := input.GetLine();
    }
    ok := IsValidLine(line);
  }

  // ---- reads with >> from a string stream ----

  /** The characters `>>` skips before a word (isspace in the C locale). */
  predicate IsSpace(c: char)
  {
    c == ' ' || c == '\t' || c == '\n' || c == '\r' || c as int == 11 || c as int == 12
  }

  /** The length of the word at the start of s: the characters up to the first space. */
  function WordLength(s: string): (n: int)
    ensures 0 <= n <= |s| && (n < |s| ==> IsSpace(s[n]))
    ensures forall k :: 0 <= k < n ==> !IsSpace(s[k])
  {
    if |s| == 0 || IsSpace(s[0]) then 0 else 1 + WordLength(s[1..])
  }

  /** The words successive `>>` reads into a std::string take from a line. */
  function Words(s: string): (ws: seq<string>)
    ensures forall k :: 0 <= k < |ws| ==> |ws[k]| > 0
    decreases |s|
  {
    if |s| == 0 then []
    else if IsSpace(s[0]) then Words(s[1..])
    else
      var n := WordLength(s);
      [s[..n]] + Words(s[n..])
  }

  /** Words hold no spaces. */
  lemma {:induction false} WordsHaveNoSpaces(s: string)
    ensures forall k, c :: 0 <= k < |Words(s)| && 0 <= c < |Words(s)[k]| ==> !IsSpace(Words(s)[k][c])
    decreases |s|
  {
    if |s| > 0 {
      if IsSpace(s[0]) {
        WordsHaveNoSpaces(s[1..]);
      } else {
        var n := WordLength(s);
        WordsHaveNoSpaces(s[n..]);
        assert Words(s) == [s[..n]] + Words(s[n..]);
      }
    }
  }

  /** The value a word converts to when read with `>>` into an int and into a float. */
  datatype Number = Number(asInt: int, asReal: real)

  /** The conversion of one word to a number, supplied by the caller. */
  type Convert = string -> Number

  /** The value `>>` stores in a 32-bit int for a value read from a word: the value itself
      when it fits, the nearest limit otherwise. */
  function Int32Of(n: int): (m: int)
    ensures -0x8000_0000 <= m < 0x8000_0000
    ensures -0x8000_0000 <= n < 0x8000_0000 ==> m == n
    ensures n < -0x8000_0000 ==> m == -0x8000_0000
    ensures n >= 0x8000_0000 ==> m == 0x7FFF_FFFF
  {
    if n < -0x8000_0000 then -0x8000_0000 else if n >= 0x8000_0000 then 0x7FFF_FFFF else n
  }

  /** `>>` into an int for the k-th word of a line; a word that is missing reads 0. */
  function IntAt(ws: seq<string>, k: int, convert: Convert): (n: int)
    ensures -0x8000_0000 <= n < 0x8000_0000
    ensures !(0 <= k < |ws|) ==> n == 0
  {
    if 0 <= k < |ws| then Int32Of(convert(ws[k]).asInt) else 0
  }

  /** `>>` into a float for the k-th word of a line; a word that is missing reads 0. */
  function RealAt(ws: seq<string>, k: int, convert: Convert): real
  {
    if 0 <= k < |ws| then convert(ws[k]).asReal else 0.0
  }
}
