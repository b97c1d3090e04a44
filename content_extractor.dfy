/** Reading the code and the markdown of a submitted file. A notebook is a
    JSON object whose `cells` list holds one object per cell; the file's text
    (absent when it cannot be read) and the JSON decoder are parameters. */
module ContentExtractor {
  import opened Wrappers
  import opened Text
  import Dict
  import opened Json
  import Paths

  /** The text put between two code cells. */
  const CellMarker: string := "\n\n# In[ ]:\n"

  /** The first decoding, and a second one when the first gave a string:
      some notebooks hold their JSON as an encoded string. */
  function DecodeNotebook(c: string, decode: Decoder): (d: Decoded)
    ensures (decode(c).Parsed? && decode(c).value.Str?) ==> d == decode(decode(c).value.s)
    ensures !(decode(c).Parsed? && decode(c).value.Str?) ==> d == decode(c)
  {
    match decode(c)
    case Parsed(Str(s)) => decode(s)
    case other => other
  }

  /** The notebook object. A file that cannot be read, a text that does not
      decode to an object (directly or through one encoded string) gives
      None; on an "Extra data" error, from either decoding, the file's text
      up to the error position is decoded once more and kept if it is an
      object. */
  function LoadNotebookJson(content: Option<string>, decode: Decoder): (r: Option<Dict.Dict<Json>>)
    ensures content.None? ==> r.None?
    ensures content.Some? && DecodeNotebook(content.value, decode).Parsed? ==>
      (r.Some? <==> DecodeNotebook(content.value, decode).value.Obj?) &&
      (r.Some? ==> Obj(r.value) == DecodeNotebook(content.value, decode).value)
    ensures content.Some? && DecodeNotebook(content.value, decode).Malformed? ==> r.None?
    ensures content.Some? && DecodeNotebook(content.value, decode).ExtraData? ==>
      var prefix := Take(content.value, DecodeNotebook(content.value, decode).pos);
      (r.Some? <==> decode(prefix).Parsed? && decode(prefix).value.Obj?) &&
      (r.Some? ==> decode(prefix) == Parsed(Obj(r.value)))
  {
    match content
    case None => None
    case Some(c) =>
      match DecodeNotebook(c, decode)
      case Parsed(v) => if v.Obj? then Some(v.fields) else None
      case Malformed(_) => None
      case ExtraData(pos, _) =>
        match decode(Take(c, pos))
        case Parsed(Obj(fields)) => Some(fields)
        case _ => None
  }

  /** The cells of a notebook that loads to a non-empty object whose `cells`
      (an empty list when missing) is a list. */
  function NotebookCells(content: Option<string>, decode: Decoder): (r: Option<seq<Json>>)
    ensures r.Some? ==> LoadNotebookJson(content, decode).Some? && |LoadNotebookJson(content, decode).value| > 0
    ensures r.Some? ==> FieldOr(Obj(LoadNotebookJson(content, decode).value), "cells", Arr([])) == Arr(r.value)
  {
    match LoadNotebookJson(content, decode)
    case None => None
    case Some(nb) =>
      if |nb| == 0 then None
      else
        match FieldOr(Obj(nb), "cells", Arr([]))
        case Arr(items) => Some(items)
        case _ => None
  }

  /** An object cell whose `cell_type` is `kind`. */
  predicate IsKind(cell: Json, kind: string)
  {
    cell.Obj? && Field(cell, "cell_type") == Some(Str(kind))
  }

  /** The concatenation of a list of strings, or None when an item is not a
      string. */
  function ConcatStrings(items: seq<Json>): (r: Option<string>)
    ensures r.Some? <==> forall k :: 0 <= k < |items| ==> items[k].Str?
  {
    if |items| == 0 then Some("")
    else
      match ConcatStrings(items[..|items| - 1])
      case None => None
      case Some(t) =>
        if items[|items| - 1].Str? then Some(t + items[|items| - 1].s) else None
  }

  /** `"".join(source)` for a cell's `source` (an empty list when missing):
      a string is itself, a list of strings is their concatenation, an object
      gives its keys; anything else cannot be joined. */
  function SourceText(source: Option<Json>): (r: Option<string>)
    ensures source.None? ==> r == Some("")
    ensures source.Some? && source.value.Str? ==> r == Some(source.value.s)
    ensures source.Some? && (source.value.Null? || source.value.Bool? || source.value.Num?) ==> r.None?
  {
    match source
    case None => Some("")
    case Some(Str(s)) => Some(s)
    case Some(Arr(items)) => ConcatStrings(items)
    case Some(Obj(fields)) => Some(Join(Dict.Keys(fields), ""))
    case Some(_) => None
  }

  /** The cells of kind `kind`, in notebook order. */
  function OfKind(cells: seq<Json>, kind: string): (r: seq<Json>)
    ensures |r| <= |cells|
    ensures forall k :: 0 <= k < |r| ==> IsKind(r[k], kind)
  {
    if |cells| == 0 then []
    else
      var c := cells[|cells| - 1];
      OfKind(cells[..|cells| - 1], kind) + (if IsKind(c, kind) then [c] else [])
  }

  /** The source texts of the cells of kind `kind`, in notebook order; None
      when one of their sources cannot be joined. */
  function CellSources(cells: seq<Json>, kind: string): (r: Option<seq<string>>)
    ensures r.Some? ==> |r.value| == |OfKind(cells, kind)|
    ensures r.Some? ==> forall k :: 0 <= k < |r.value| ==>
      SourceText(Field(OfKind(cells, kind)[k], "source")) == Some(r.value[k])
    ensures r.None? <==> exists k ::
      (0 <= k < |OfKind(cells, kind)| && SourceText(Field(OfKind(cells, kind)[k], "source")).None?)
  {
    if |cells| == 0 then Some([])
    else
      var c := cells[|cells| - 1];
      var init := cells[..|cells| - 1];
      assert OfKind(cells, kind) == OfKind(init, kind) + (if IsKind(c, kind) then [c] else []);
      match CellSources(init, kind)
      case None =>
        var k :| 0 <= k < |OfKind(init, kind)| && SourceText(Field(OfKind(init, kind)[k], "source")).None?;
        assert OfKind(cells, kind)[k] == OfKind(init, kind)[k];
        None
      case Some(texts) =>
        if !IsKind(c, kind) then Some(texts)
        else
          match SourceText(Field(c, "source"))
          case None =>
            assert OfKind(cells, kind)[|OfKind(init, kind)|] == c;
            None
          case Some(t) => Some(texts + [t])
  }

  /** Cells of another kind, and cells that are not objects, change nothing. */
  lemma {:induction false} OnlyKindCellsMatter(cells: seq<Json>, kind: string)
    ensures CellSources(cells, kind) == CellSources(OfKind(cells, kind), kind)
  {
    if |cells| > 0 {
      var c := cells[|cells| - 1];
      var init := cells[..|cells| - 1];
      OnlyKindCellsMatter(init, kind);
      if IsKind(c, kind) {
        var f := OfKind(init, kind) + [c];
        assert OfKind(cells, kind) == f;
        assert f[..|f| - 1] == OfKind(init, kind) && f[|f| - 1] == c;
      } else {
        assert OfKind(cells, kind) == OfKind(init, kind);
        assert CellSources(cells, kind) == CellSources(init, kind);
      }
    }
  }

  /** The code-cell bodies of a notebook. */
  function NotebookCode(content: Option<string>, decode: Decoder): Option<seq<string>>
  {
    match NotebookCells(content, decode)
    case None => None
    case Some(cells) => CellSources(cells, "code")
  }

  /** The code of a `.py` file is its text; the code of a notebook is its
      code-cell bodies joined by the cell marker; any other file, and a
      notebook that does not load, has no code. */
  function ExtractCode(path: string, content: Option<string>, decode: Decoder): (r: Option<string>)
    ensures Paths.PathSuffix(path) == ".py" ==> r == content
    ensures Paths.PathSuffix(path) != ".py" && Paths.PathSuffix(path) != ".ipynb" ==> r.None?
    ensures Paths.PathSuffix(path) == ".ipynb" ==>
      (r.Some? <==> NotebookCode(content, decode).Some?) &&
      (r.Some? ==> r.value == Join(NotebookCode(content, decode).value, CellMarker))
  {
    var suffix := Paths.PathSuffix(path);
    if suffix == ".py" then content
    else if suffix == ".ipynb" then
      match NotebookCode(content, decode)
      case None => None
      case Some(bodies) => Some(Join(bodies, CellMarker))
    else None
  }

  /** The markdown-cell bodies of a notebook, in order; nothing for any other
      file or a notebook that does not load. */
  function ExtractMarkdown(path: string, content: Option<string>, decode: Decoder): (r: seq<string>)
    ensures Paths.PathSuffix(path) != ".ipynb" ==> r == []
    ensures NotebookCells(content, decode).None? ==> r == []
    ensures Paths.PathSuffix(path) == ".ipynb" && NotebookCells(content, decode).Some? ==>
      var md := CellSources(NotebookCells(content, decode).value, "markdown");
      r == if md.Some? then md.value else []
  {
    if Paths.PathSuffix(path) != ".ipynb" then []
    else
      match NotebookCells(content, decode)
      case None => []
      case Some(cells) =>
        match CellSources(cells, "markdown")
        case None => []
        case Some(texts) => texts
  }

  /** Splitting a notebook's code on the cell marker gives back its code-cell
      bodies, when there is at least one and none but the last has an
      occurrence of the marker reaching into it from the join. */
  lemma ExtractCodeSplits(path: string, content: Option<string>, decode: Decoder)
    requires Paths.PathSuffix(path) == ".ipynb"
    requires NotebookCode(content, decode).Some?
    requires Recoverable(NotebookCode(content, decode).value, CellMarker)
    ensures ExtractCode(path, content, decode).Some?
    ensures Split(ExtractCode(path, content, decode).value, CellMarker) == NotebookCode(content, decode).value
  {
    var bodies := NotebookCode(content, decode).value;
    assert ExtractCode(path, content, decode) == Some(Join(bodies, CellMarker));
    SplitJoin(bodies, CellMarker);
  }

  /** A notebook with no code cells has the empty text as its code. */
  lemma NoCodeCells(path: string, content: Option<string>, decode: Decoder)
    requires Paths.PathSuffix(path) == ".ipynb"
    requires NotebookCells(content, decode).Some?
    requires OfKind(NotebookCells(content, decode).value, "code") == []
    ensures ExtractCode(path, content, decode) == Some("")
  {
  }

  /** Not containing the marker is not enough for the split to give the
      bodies back: a body ending in all of the marker but its final newline
      is cut short. */
  lemma MarkerFreeBodyNotRecovered()
    ensures var b := "x" + CellMarker[..|CellMarker| - 1];
      !Contains(b, CellMarker) && Split(Join([b, "y"], CellMarker), CellMarker) != [b, "y"]
  {
    var b := "x" + CellMarker[..|CellMarker| - 1];
    assert |b| == |CellMarker|;
    assert !OccursAt(b, CellMarker, 0) by { assert b[0] != CellMarker[0]; }
    forall i | 0 <= i <= |b| ensures !OccursAt(b, CellMarker, i) {
      if i > 0 {
        assert i + |CellMarker| > |b|;
      }
    }
    var s := Join([b, "y"], CellMarker);
    assert s == b + CellMarker + "y";
    assert OccursAt(s, CellMarker, 1) by {
      assert s[1..1 + |CellMarker|] == CellMarker[..|CellMarker| - 1] + [CellMarker[0]];
      assert CellMarker[0] == CellMarker[|CellMarker| - 1];
      assert CellMarker[..|CellMarker| - 1] + [CellMarker[|CellMarker| - 1]] == CellMarker;
    }
    assert !OccursAt(s, CellMarker, 0) by { assert s[0] == 'x'; }
    assert Find(s, CellMarker) == Some(1);
    assert |Split(s, CellMarker)[0]| == 1;
  }
}
