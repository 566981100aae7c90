/** The notebook file format (src/serializer.ts): a document of stored cells
    and metadata, and how cells map to and from the editor's cells. The JSON
    text itself is not modelled: reading takes the text together with what
    `JSON.parse` made of it, and writing produces the document that
    `JSON.stringify` writes out. */
module Serializer {
  import opened Wrappers
  import opened Types

  /** A cell as stored in the file; `language` may be missing. */
  datatype StoredCell = StoredCell(kind: string, language: Option<string>, value: string)

  /** The stored document; `cells` is missing when the JSON has no such
      array, and the metadata is carried along as it is. */
  datatype StoredDoc = StoredDoc(cells: Option<seq<StoredCell>>, metadata: Option<Row>)

  datatype CellKind = Markup | Code

  /** A cell of the editor. */
  datatype Cell = Cell(kind: CellKind, value: string, languageId: string)

  datatype NotebookData = NotebookData(cells: seq<Cell>, metadata: Option<Row>)

  /** `cell.kind === 'markup'` decides the kind; a markup cell is always
      markdown, a code cell keeps its language unless that is missing or
      empty, when it is SQL. */
  function ReadCell(c: StoredCell): (r: Cell)
    ensures r.value == c.value
    ensures r.kind == Markup <==> c.kind == "markup"
    ensures r.kind == Markup ==> r.languageId == "markdown"
    ensures r.kind == Code && c.language.Some? && c.language.value != "" ==> r.languageId == c.language.value
    ensures r.kind == Code && (c.language.None? || c.language.value == "") ==> r.languageId == "sql"
  {
    var kind := if c.kind == "markup" then Markup else Code;
    var language :=
      if c.kind == "markup" then "markdown"
      else if c.language.Some? && c.language.value != "" then c.language.value
      else "sql";
    Cell(kind, c.value, language)
  }

  /** Reading a file: empty text and text that does not parse give a
      notebook with no cells and no metadata; a parsed document without a
      cells array makes reading fail. */
  function Deserialize(text: string, parsed: Option<StoredDoc>): (r: Result<NotebookData>)
    ensures |text| == 0 || parsed.None? ==> r == Ok(NotebookData([], None))
    ensures |text| > 0 && parsed.Some? ==>
      (r.Ok? <==> parsed.value.cells.Some?)
    ensures |text| > 0 && parsed.Some? && r.Ok? ==>
      && |r.value.cells| == |parsed.value.cells.value|
      && (forall i :: 0 <= i < |r.value.cells| ==> r.value.cells[i] == ReadCell(parsed.value.cells.value[i]))
      && r.value.metadata == parsed.value.metadata
  {
    var doc := if |text| > 0 && parsed.Some? then parsed.value else StoredDoc(Some([]), None);
    match doc.cells
    case None => Err("doc.cells is undefined")
    case Some(cells) =>
      Ok(NotebookData(seq(|cells|, i requires 0 <= i < |cells| => ReadCell(cells[i])), doc.metadata))
  }

  /** Writing a cell: Markup is stored as "markup", Code as "code", with the
      language and the text as they are. */
  function WriteCell(c: Cell): (r: StoredCell)
    ensures r.kind == (if c.kind == Markup then "markup" else "code")
    ensures r.language == Some(c.languageId) && r.value == c.value
  {
    StoredCell(if c.kind == Markup then "markup" else "code", Some(c.languageId), c.value)
  }

  function Serialize(data: NotebookData): (r: StoredDoc)
    ensures r.cells.Some? && |r.cells.value| == |data.cells|
    ensures forall i :: 0 <= i < |data.cells| ==> r.cells.value[i] == WriteCell(data.cells[i])
    ensures r.metadata == data.metadata
  {
    StoredDoc(Some(seq(|data.cells|, i requires 0 <= i < |data.cells| => WriteCell(data.cells[i]))), data.metadata)
  }

  /** What a cell becomes once written and read back: markup turns
      markdown, an empty code language turns SQL. */
  function Normal(c: Cell): Cell
  {
    match c.kind
    case Markup => Cell(Markup, c.value, "markdown")
    case Code => Cell(Code, c.value, if c.languageId == "" then "sql" else c.languageId)
  }

  function NormalAll(data: NotebookData): NotebookData
  {
    NotebookData(seq(|data.cells|, i requires 0 <= i < |data.cells| => Normal(data.cells[i])), data.metadata)
  }

  /** A cell reads back as the normal form of the cell written. */
  lemma ReadWriteCell(c: Cell)
    ensures ReadCell(WriteCell(c)) == Normal(c)
  {
  }

  /** Writing a notebook and reading the file back keeps the number of
      cells, their order, kinds and texts and the metadata; code languages
      survive unless empty, markup languages become markdown. */
  lemma RoundTrip(data: NotebookData, text: string)
    requires |text| > 0
    ensures Deserialize(text, Some(Serialize(data))) == Ok(NormalAll(data))
  {
    var r := Deserialize(text, Some(Serialize(data)));
    assert r.Ok?;
    forall i | 0 <= i < |data.cells| ensures r.value.cells[i] == NormalAll(data).cells[i] {
      ReadWriteCell(data.cells[i]);
    }
    assert r.value.cells == NormalAll(data).cells;
  }

  /** A notebook comes back from a round trip unchanged exactly when it is
      in normal form: its markup cells are markdown and its code cells
      name a language. */
  lemma RoundTripExact(data: NotebookData, text: string)
    requires |text| > 0
    ensures Deserialize(text, Some(Serialize(data))) == Ok(data)
        <==> forall i :: 0 <= i < |data.cells| ==> Normal(data.cells[i]) == data.cells[i]
  {
    RoundTrip(data, text);
    if forall i :: 0 <= i < |data.cells| ==> Normal(data.cells[i]) == data.cells[i] {
      assert NormalAll(data).cells == data.cells;
    } else {
      var i :| 0 <= i < |data.cells| && Normal(data.cells[i]) != data.cells[i];
      assert NormalAll(data).cells[i] != data.cells[i];
    }
  }

  /** A notebook just read from a file is in normal form, so saving it
      and reading the file again gives the same notebook. */
  lemma ReopenUnchanged(text: string, parsed: Option<StoredDoc>, text2: string)
    requires Deserialize(text, parsed).Ok?
    requires |text2| > 0
    ensures var data := Deserialize(text, parsed).value;
      Deserialize(text2, Some(Serialize(data))) == Ok(data)
  {
    var data := Deserialize(text, parsed).value;
    forall i | 0 <= i < |data.cells| ensures Normal(data.cells[i]) == data.cells[i] {
    }
    RoundTripExact(data, text2);
  }
}
