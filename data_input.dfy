/**
 * The application side of the skinning assignment (A2 main.cpp): the keyword file that names
 * the textures, the meshes and the skeleton to load, and the character callback that toggles
 * a key and forwards it to every shape's texture matrix.
 */
module AppInput {
  import opened LineInput
  import opened TextureMatrices
  import opened Skinning

  // ---- loadDataInputFile ----

  /** What the input file names: the texture files, for each mesh its OBJ, skin and texture
      files, and the skeleton file. */
  datatype Data = Data(textureData: seq<string>, meshData: seq<seq<string>>, skeletonData: string)

  /** `ss >> value` for the k-th word of a line into a string holding old: the word, or old
      unchanged when the line has no k-th word (the extraction fails before clearing it). */
  function WordOr(ws: seq<string>, k: nat, old_: string): (w: string)
    ensures k < |ws| ==> w == ws[k]
    ensures k >= |ws| ==> w == old_
  {
    if k < |ws| then ws[k] else old_
  }

  /** A line the loop skips: empty, or a '#' comment. */
  predicate Skipped(line: string)
  {
    |line| == 0 || line[0] == '#'
  }

  /** The data after one line has been parsed: TEXTURE appends its value, MESH the list of
      its three values (a missing value repeats the one before it), SKELETON replaces the
      skeleton file; any other key word changes nothing. */
  function Parsed(d: Data, line: string): Data
  {
    if Skipped(line) then d
    else
      var ws := Words(line);
      var key := WordOr(ws, 0, "");
      if key == "TEXTURE" then d.(textureData := d.textureData + [WordOr(ws, 1, "")])
      else if key == "MESH" then
        var obj := WordOr(ws, 1, "");
        var skin := WordOr(ws, 2, obj);
        var texture := WordOr(ws, 3, skin);
        d.(meshData := d.meshData + [[obj, skin, texture]])
      else if key == "SKELETON" then d.(skeletonData := WordOr(ws, 1, ""))
      else d
  }

  /** The data after the lines ls have been parsed in order. */
  function ParsedAll(d: Data, ls: seq<string>): Data
    decreases |ls|
  {
    if |ls| == 0 then d else ParsedAll(Parsed(d, ls[0]), ls[1..])
  }

  /** The lines the loop parses from pos on: each line getline returns without reaching the
      end of the file. */
  function Terminated(text: string, pos: int): seq<string>
    requires 0 <= pos <= |text|
    decreases |text| - pos
  {
    var r := GetLineAt(text, pos);
    if r.eof then [] else [r.line] + Terminated(text, r.pos)
  }

  /** The global dataInput. */
  class DataInput {
    var textureData: seq<string>
    var meshData: seq<seq<string>>
    var skeletonData: string

    constructor ()
      ensures textureData == [] && meshData == [] && skeletonData == ""
    {
      textureData, meshData, skeletonData := [], [], "";
    }

    /** The data held. */
    function State(): Data
      reads this
    {
      Data(textureData, meshData, skeletonData)
    }
  }

  /** loadDataInputFile, given whether input.txt opened and the stream on it: the loop over
      its lines, skipping empty lines and comments and parsing the rest, until getline
      reaches the end of the file.  A file that cannot be read changes nothing. */
  method LoadDataInputFile(dataInput: DataInput, isOpen: bool, input: InStream)
    requires input.Valid()
    modifies dataInput, input
    ensures !isOpen ==> dataInput.State() == old(dataInput.State())
    ensures isOpen ==> dataInput.State() == ParsedAll(old(dataInput.State()), Terminated(input.text, old(input.pos)))
  {
    if !isOpen {
      return;
    }
    ghost var goal := ParsedAll(dataInput.State(), Terminated(input.text, input.pos));
    while true
      invariant input.Valid()
      invariant ParsedAll(dataInput.State(), Terminated(input.text, input.pos)) == goal
      decreases |input.text| - input.pos
    {
      ghost var before := input.pos;
      var line := input.GetLine();
      if input.eof {
        break;
      }
      assert Terminated(input.text, before) == [line] + Terminated(input.text, input.pos);
      if |line| == 0 {
        continue;
      }
      if line[0] == '#' {
        continue;
      }
      ParseLine(dataInput, line);
    }
  }

  /** The body of the loop for a line that is neither empty nor a comment: `ss >> key`, then
      the values the key word takes, each `ss >> value` into the same string. */
  method ParseLine(dataInput: DataInput, line: string)
    requires !Skipped(line)
    modifies dataInput
    ensures dataInput.State() == Parsed(old(dataInput.State()), line)
  {
    var ws := Words(line);
    var key, value := "", "";
    key := WordOr(ws, 0, key);
    if key == "TEXTURE" {
      value := WordOr(ws, 1, value);
      dataInput.textureData := dataInput.textureData + [value];
    } else if key == "MESH" {
      var mesh: seq<string> := [];
      value := WordOr(ws, 1, value);
      mesh := mesh + [value];
      ghost var obj := value;
      value := WordOr(ws, 2, value);
      mesh := mesh + [value];
      ghost var skin := value;
      value := WordOr(ws, 3, value);
      mesh := mesh + [value];
      assert mesh == [obj, skin, value];
      dataInput.meshData := dataInput.meshData + [mesh];
    } else if key == "SKELETON" {
      value := WordOr(ws, 1, value);
      dataInput.skeletonData := value;
    }
  }

  /** Empty lines and comments change nothing. */
  lemma SkippedLinesChangeNothing(d: Data, line: string)
    requires Skipped(line)
    ensures Parsed(d, line) == d
  {
  }

  /** TEXTURE v appends exactly v to the textures and changes nothing else. */
  lemma TextureAppendsOne(d: Data, line: string)
    requires !Skipped(line) && |Words(line)| >= 2 && Words(line)[0] == "TEXTURE"
    ensures Parsed(d, line) == d.(textureData := d.textureData + [Words(line)[1]])
  {
  }

  /** MESH a b c appends the list [a, b, c] (OBJ, skin, texture) to the meshes and changes
      nothing else; with only two values the second is repeated. */
  lemma MeshAppendsThree(d: Data, line: string)
    requires !Skipped(line) && |Words(line)| >= 1 && Words(line)[0] == "MESH"
    ensures var ws := Words(line);
      |ws| >= 4 ==> Parsed(d, line) == d.(meshData := d.meshData + [[ws[1], ws[2], ws[3]]])
    ensures var ws := Words(line);
      |ws| == 3 ==> Parsed(d, line) == d.(meshData := d.meshData + [[ws[1], ws[2], ws[2]]])
    ensures |Parsed(d, line).meshData| == |d.meshData| + 1 && |Parsed(d, line).meshData[|d.meshData|]| == 3
    ensures Parsed(d, line).textureData == d.textureData && Parsed(d, line).skeletonData == d.skeletonData
  {
  }

  /** A line whose key word is not one of the three changes nothing. */
  lemma UnknownKeyChangesNothing(d: Data, line: string)
    requires !Skipped(line)
    requires var key := WordOr(Words(line), 0, ""); key != "TEXTURE" && key != "MESH" && key != "SKELETON"
    ensures Parsed(d, line) == d
  {
  }

  /** A line is a SKELETON line. */
  predicate IsSkeletonLine(line: string)
  {
    !Skipped(line) && WordOr(Words(line), 0, "") == "SKELETON"
  }

  /** Parsing two runs of lines parses their concatenation. */
  lemma {:induction false} ParsedAllConcat(d: Data, a: seq<string>, b: seq<string>)
    ensures ParsedAll(d, a + b) == ParsedAll(ParsedAll(d, a), b)
    decreases |a|
  {
    if |a| > 0 {
      assert (a + b)[0] == a[0] && (a + b)[1..] == a[1..] + b;
      ParsedAllConcat(Parsed(d, a[0]), a[1..], b);
    } else {
      assert a + b == b;
    }
  }

  /** Lines that are not SKELETON lines leave the skeleton file as it is. */
  lemma {:induction false} OthersKeepSkeleton(d: Data, ls: seq<string>)
    requires forall k :: 0 <= k < |ls| ==> !IsSkeletonLine(ls[k])
    ensures ParsedAll(d, ls).skeletonData == d.skeletonData
    decreases |ls|
  {
    if |ls| > 0 {
      OthersKeepSkeleton(Parsed(d, ls[0]), ls[1..]);
    }
  }

  /** The last SKELETON line wins: whatever came before it, the skeleton file is its value
      when no SKELETON line follows. */
  lemma LastSkeletonWins(d: Data, before: seq<string>, line: string, after: seq<string>)
    requires IsSkeletonLine(line)
    requires forall k :: 0 <= k < |after| ==> !IsSkeletonLine(after[k])
    ensures ParsedAll(d, before + [line] + after).skeletonData == WordOr(Words(line), 1, "")
  {
    ParsedAllConcat(d, before + [line], after);
    ParsedAllConcat(d, before, [line]);
    OthersKeepSkeleton(ParsedAll(d, before + [line]), after);
  }

  /** The lines parsed are all the lines getline returns but the last, the one that reaches
      the end of the file; that last line is the text after the last '\n' (empty when the file
      ends with one), and it is never parsed. */
  lemma {:induction false} FinalLineNotParsed(text: string, pos: int)
    requires 0 <= pos <= |text|
    ensures var ls := Lines(text, pos);
      Terminated(text, pos) == ls[..|ls| - 1]
      && |ls[|ls| - 1]| <= |text| && text[|text| - |ls[|ls| - 1]|..] == ls[|ls| - 1]
    decreases |text| - pos
  {
    var r := GetLineAt(text, pos);
    if !r.eof {
      FinalLineNotParsed(text, r.pos);
      var rest := Lines(text, r.pos);
      assert Lines(text, pos) == [r.line] + rest;
      assert ([r.line] + rest)[..|rest|] == [r.line] + rest[..|rest| - 1];
    }
  }

  // ---- char_callback ----

  /** The size of keyToggles. */
  const KeyCount := 256

  /** The index char_callback uses in keyToggles as written: the code point itself, with no
      bound check. */
  function ToggleIndexAsWritten(key: uint32): int
  {
    key as int
  }

  /** GLFW passes any Unicode code point to the character callback: U+263A (a smiley) is
      typed as 9786, which the source uses as an index into the 256 keyToggles. */
  lemma AsWrittenIndexOutOfBounds()
    ensures ToggleIndexAsWritten(0x263A) >= KeyCount
  {
  }

  /** The toggles after a key: the key's entry flipped when it has one, all as they were for
      a code point past the table. */
  function Toggled(toggles: seq<bool>, key: uint32): (t: seq<bool>)
    ensures |t| == |toggles|
  {
    if (key as int) < |toggles| then toggles[key as int := !toggles[key as int]] else toggles
  }

  /** Pressing a key twice restores the toggles. */
  lemma ToggleTwiceRestores(toggles: seq<bool>, key: uint32)
    ensures Toggled(Toggled(toggles, key), key) == toggles
  {
  }

  /** A key flips its own toggle and no other. */
  lemma ToggleFlipsOne(toggles: seq<bool>, key: uint32, k: int)
    requires 0 <= k < |toggles|
    ensures Toggled(toggles, key)[k] == if k == key as int then !toggles[k] else toggles[k]
  {
  }

  /** char_callback, with the bound check on keyToggles the table needs: the key's toggle is
      flipped when the key has one, and every shape's texture matrix is updated with the key
      (the shapes own distinct texture matrices). */
  method CharCallback(keyToggles: array<bool>, shapes: seq<ShapeSkin>, key: uint32)
    requires keyToggles.Length == KeyCount
    requires forall i, j :: 0 <= i < j < |shapes| ==> shapes[i].T != shapes[j].T
    modifies keyToggles, set i | 0 <= i < |shapes| :: shapes[i].T
    ensures keyToggles[..] == Toggled(old(keyToggles[..]), key)
    ensures forall i :: 0 <= i < |shapes| ==>
      shapes[i].T.part == old(shapes[i].T.part) && shapes[i].T.T == Updated(old(shapes[i].T.part), key, old(shapes[i].T.T))
  {
    if (key as int) < KeyCount {
      keyToggles[key] := !keyToggles[key];
    }
    for i := 0 to |shapes|
      invariant keyToggles[..] == Toggled(old(keyToggles[..]), key)
      invariant forall j :: 0 <= j < i ==>
        shapes[j].T.part == old(shapes[j].T.part) && shapes[j].T.T == Updated(old(shapes[j].T.part), key, old(shapes[j].T.T))
      invariant forall j :: i <= j < |shapes| ==> shapes[j].T.part == old(shapes[j].T.part) && shapes[j].T.T == old(shapes[j].T.T)
    {
      shapes[i].T.Update(key);
    }
  }
}
