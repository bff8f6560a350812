/**
 * Building documents from table rows. The ingester selects only the columns its mapping
 * seems to need; a document built from such a row should be the one the full row gives.
 */
module Projection {
  import opened Common

  /** `TypeError`: the JSON library throws when a value is not of the requested type. */
  datatype Result<T> = Ok(value: T) | TypeError

  /** Object fields in iteration order, each key once. */
  datatype Json = Null | Bool(b: bool) | Num(n: int) | Str(s: string) | Arr(items: seq<Json>)
      | Obj(fields: seq<(string, Json)>)

  type Row = map<string, string>

  datatype Source = Source(table: string, pk: string, docMap: Json)
  datatype Embedding = Embedding(enabled: bool, input: Json)

  /** `pk` and `metadata` are dumped as JSON text, which depends on nothing else. */
  datatype Doc = Doc(docId: string, pk: (string, string), title: string, body: string, metadata: map<string, string>)

  function Find(fields: seq<(string, Json)>, key: string): Option<Json> {
    if fields == [] then None
    else if fields[0].0 == key then Some(fields[0].1)
    else Find(fields[1..], key)
  }

  /** `contains` and `[]`: false on anything but an object. */
  function Get(j: Json, key: string): Option<Json> {
    if j.Obj? then Find(j.fields, key) else None
  }

  function Get2(j: Json, key: string, inner: string): Option<Json> {
    match Get(j, key)
    case Some(x) => Get(x, inner)
    case None => None
  }

  /** `row_get`, appended: a missing column adds nothing. */
  function Text(row: Row, col: string): string {
    if col in row then row[col] else ""
  }

  // ----- concat specifications

  function Part(p: Json, row: Row, chunk: string, allowChunk: bool): Result<string> {
    if Get(p, "col").Some? then
      var c := Get(p, "col").value;
      if c.Str? then Ok(Text(row, c.s)) else TypeError
    else if Get(p, "lit").Some? then
      var l := Get(p, "lit").value;
      if l.Str? then Ok(l.s) else TypeError
    else if allowChunk && Get(p, "chunk_body").Some? then
      var b := Get(p, "chunk_body").value;
      if b.Bool? then Ok(if b.b then chunk else "") else TypeError
    else Ok("")
  }

  function Append(a: Result<string>, b: Result<string>): Result<string> {
    if a.Ok? && b.Ok? then Ok(a.value + b.value) else TypeError
  }

  function Parts(ps: seq<Json>, row: Row, chunk: string, allowChunk: bool): Result<string> {
    if ps == [] then Ok("")
    else Append(Parts(ps[..|ps| - 1], row, chunk, allowChunk), Part(ps[|ps| - 1], row, chunk, allowChunk))
  }

  function Concat(spec: Json, row: Row, chunk: string, allowChunk: bool): Result<string> {
    if spec.Arr? then Parts(spec.items, row, chunk, allowChunk) else Ok("")
  }

  /** `eval_concat`. */
  method EvalConcat(spec: Json, row: Row, chunk: string, allowChunk: bool) returns (r: Result<string>)
    ensures r == Concat(spec, row, chunk, allowChunk)
  {
    if !spec.Arr? {
      return Ok("");
    }
    var out, i := "", 0;
    while i < |spec.items|
      invariant 0 <= i <= |spec.items|
      invariant Parts(spec.items[..i], row, chunk, allowChunk) == Ok(out)
    {
      var part := spec.items[i];
      PartsStep(spec.items, i, row, chunk, allowChunk);
      if part.Obj? {
        var piece := Part(part, row, chunk, allowChunk);
        if piece.TypeError? {
          FailureStays(spec.items, i + 1, row, chunk, allowChunk);
          return TypeError;
        }
        out := out + piece.value;
      } else {
        assert out + "" == out;
      }
      i := i + 1;
    }
    assert spec.items[..i] == spec.items;
    return Ok(out);
  }

  lemma PartsStep(ps: seq<Json>, i: nat, row: Row, chunk: string, allowChunk: bool)
    requires i < |ps|
    ensures Parts(ps[..i + 1], row, chunk, allowChunk)
      == Append(Parts(ps[..i], row, chunk, allowChunk), Part(ps[i], row, chunk, allowChunk))
  {
    assert ps[..i + 1][..i] == ps[..i];
  }

  lemma {:induction false} FailureStays(ps: seq<Json>, i: nat, row: Row, chunk: string, allowChunk: bool)
    requires i <= |ps| && Parts(ps[..i], row, chunk, allowChunk).TypeError?
    ensures Parts(ps, row, chunk, allowChunk).TypeError?
    decreases |ps| - i
  {
    if i == |ps| {
      assert ps[..i] == ps;
    } else {
      PartsStep(ps, i, row, chunk, allowChunk);
      FailureStays(ps, i + 1, row, chunk, allowChunk);
    }
  }

  /** Texts one behind the other. */
  function Joined(texts: seq<string>): string {
    if texts == [] then "" else texts[0] + Joined(texts[1..])
  }

  /** The texts of the parts, each on its own. */
  function Texts(ps: seq<Json>, row: Row, chunk: string, allowChunk: bool): (texts: seq<string>)
    ensures |texts| == |ps|
    ensures forall i :: 0 <= i < |ps| && Part(ps[i], row, chunk, allowChunk).Ok? ==>
      texts[i] == Part(ps[i], row, chunk, allowChunk).value
  {
    if ps == [] then []
    else
      var p := Part(ps[0], row, chunk, allowChunk);
      [if p.Ok? then p.value else ""] + Texts(ps[1..], row, chunk, allowChunk)
  }

  ghost predicate NoneFails(ps: seq<Json>, row: Row, chunk: string, allowChunk: bool) {
    forall i :: 0 <= i < |ps| ==> Part(ps[i], row, chunk, allowChunk).Ok?
  }

  lemma NoneFailsFirst(ps: seq<Json>, row: Row, chunk: string, allowChunk: bool)
    requires ps != []
    ensures NoneFails(ps, row, chunk, allowChunk)
      <==> Part(ps[0], row, chunk, allowChunk).Ok? && NoneFails(ps[1..], row, chunk, allowChunk)
  {
    var rest := ps[1..];
    if Part(ps[0], row, chunk, allowChunk).Ok? && NoneFails(rest, row, chunk, allowChunk) {
      forall i | 0 <= i < |ps| ensures Part(ps[i], row, chunk, allowChunk).Ok? {
        assert i > 0 ==> ps[i] == rest[i - 1];
      }
    }
    if NoneFails(ps, row, chunk, allowChunk) {
      forall i | 0 <= i < |rest| ensures Part(rest[i], row, chunk, allowChunk).Ok? {
        assert rest[i] == ps[i + 1];
      }
    }
  }

  lemma OnePart(p: Json, row: Row, chunk: string, allowChunk: bool)
    ensures Parts([p], row, chunk, allowChunk) == Part(p, row, chunk, allowChunk)
  {
    assert [p][..0] == [];
    var r := Part(p, row, chunk, allowChunk);
    assert r.Ok? ==> "" + r.value == r.value;
  }

  /** It throws exactly when some part does, and otherwise joins the texts of the parts in their order. */
  lemma {:induction false} PartsInOrder(ps: seq<Json>, row: Row, chunk: string, allowChunk: bool)
    ensures Parts(ps, row, chunk, allowChunk)
      == if NoneFails(ps, row, chunk, allowChunk) then Ok(Joined(Texts(ps, row, chunk, allowChunk))) else TypeError
    decreases |ps|
  {
    if ps != [] {
      var rest := ps[1..];
      assert ps == [ps[0]] + rest;
      PartsConcat([ps[0]], rest, row, chunk, allowChunk);
      OnePart(ps[0], row, chunk, allowChunk);
      PartsInOrder(rest, row, chunk, allowChunk);
      NoneFailsFirst(ps, row, chunk, allowChunk);
    }
  }

  /** Two lists of parts one behind the other. */
  lemma {:induction false} PartsConcat(ps: seq<Json>, qs: seq<Json>, row: Row, chunk: string, allowChunk: bool)
    ensures var p, q := Parts(ps, row, chunk, allowChunk), Parts(qs, row, chunk, allowChunk);
      Parts(ps + qs, row, chunk, allowChunk) == if p.Ok? && q.Ok? then Ok(p.value + q.value) else TypeError
  {
    if qs == [] {
      assert ps + qs == ps;
      var p := Parts(ps, row, chunk, allowChunk);
      assert p.Ok? ==> p.value + "" == p.value;
    } else {
      var n := |qs| - 1;
      assert (ps + qs)[..|ps + qs| - 1] == ps + qs[..n];
      PartsConcat(ps, qs[..n], row, chunk, allowChunk);
      var p, q, last := Parts(ps, row, chunk, allowChunk), Parts(qs[..n], row, chunk, allowChunk),
                        Part(qs[n], row, chunk, allowChunk);
      if p.Ok? && q.Ok? && last.Ok? {
        assert (p.value + q.value) + last.value == p.value + (q.value + last.value);
      }
    }
  }

  /** What a configuration writes as one part of a concatenation. */
  datatype Item = Col(name: string) | Lit(text: string) | ChunkBody(yes: bool) | Other(key: string)

  function ItemJson(x: Item): Json {
    match x
    case Col(name) => Obj([("col", Str(name))])
    case Lit(text) => Obj([("lit", Str(text))])
    case ChunkBody(yes) => Obj([("chunk_body", Bool(yes))])
    case Other(key) => Obj([(key, Null)])
  }

  /** A column's value, the literal itself, the chunk where it is allowed and asked for; else nothing. */
  lemma ItemText(x: Item, row: Row, chunk: string, allowChunk: bool)
    requires x.Other? ==> x.key != "col" && x.key != "lit" && x.key != "chunk_body"
    ensures var p := Part(ItemJson(x), row, chunk, allowChunk);
      && p.Ok?
      && (x.Col? && x.name in row ==> p.value == row[x.name])
      && (x.Lit? ==> p.value == x.text)
      && (x.ChunkBody? && x.yes && allowChunk ==> p.value == chunk)
      && (x.Other? || (x.Col? && x.name !in row) || (x.ChunkBody? && !(x.yes && allowChunk)) ==> p.value == "")
  {
    match x
    case Col(name) =>
    case Lit(text) => OnlyKey("lit", Str(text), "col");
    case ChunkBody(yes) =>
      OnlyKey("chunk_body", Bool(yes), "col");
      OnlyKey("chunk_body", Bool(yes), "lit");
    case Other(key) =>
      OnlyKey(key, Null, "col");
      OnlyKey(key, Null, "lit");
      OnlyKey(key, Null, "chunk_body");
  }

  /** The three recognised keys want a string, a string and a bool; the first one present decides. */
  lemma PartFailsExactly(p: Json, row: Row, chunk: string, allowChunk: bool)
    ensures Part(p, row, chunk, allowChunk).TypeError? <==>
      match (Get(p, "col"), Get(p, "lit"), Get(p, "chunk_body"))
      case (Some(c), _, _) => !c.Str?
      case (None, Some(l), _) => !l.Str?
      case (None, None, Some(b)) => allowChunk && !b.Bool?
      case (None, None, None) => false
    ensures !p.Obj? ==> Part(p, row, chunk, allowChunk) == Ok("")
  {
  }

  lemma OnlyKey(key: string, j: Json, other: string)
    requires key != other
    ensures Find([(key, j)], other) == None && Find([(key, j)], key) == Some(j)
  {
    assert [(key, j)][1..] == [];
  }

  // ----- metadata

  function Picked(pick: seq<Json>, row: Row): map<string, string> {
    if pick == [] then map[]
    else
      var m, last := Picked(pick[..|pick| - 1], row), pick[|pick| - 1];
      if last.Str? && last.s in row then m[last.s := row[last.s]] else m
  }

  function Renames(fields: seq<(string, Json)>): seq<(string, string)> {
    if fields == [] then []
    else
      var r, last := Renames(fields[..|fields| - 1]), fields[|fields| - 1];
      if last.1.Str? then r + [(last.0, last.1.s)] else r
  }

  /** The old key goes even when the new one is the same. */
  function Rename(m: map<string, string>, r: (string, string)): map<string, string> {
    if r.0 in m then m[r.1 := m[r.0]] - {r.0} else m
  }

  function Renamed(m: map<string, string>, rs: seq<(string, string)>): map<string, string> {
    if rs == [] then m else Rename(Renamed(m, rs[..|rs| - 1]), rs[|rs| - 1])
  }

  function PickOf(spec: Json): seq<Json> {
    match Get(spec, "pick")
    case Some(Arr(items)) => items
    case _ => []
  }

  function RenamesOf(spec: Json): seq<(string, string)> {
    match Get(spec, "rename")
    case Some(Obj(fields)) => Renames(fields)
    case _ => []
  }

  function Metadata(spec: Json, row: Row): map<string, string> {
    Renamed(Picked(PickOf(spec), row), RenamesOf(spec))
  }

  /** `build_metadata`. */
  method BuildMetadata(spec: Json, row: Row) returns (meta: map<string, string>)
    ensures meta == Metadata(spec, row)
  {
    meta := map[];
    var pick := PickOf(spec);
    var i := 0;
    while i < |pick|
      invariant 0 <= i <= |pick| && meta == Picked(pick[..i], row)
    {
      assert pick[..i + 1][..i] == pick[..i];
      if pick[i].Str? && pick[i].s in row {
        meta := meta[pick[i].s := row[pick[i].s]];
      }
      i := i + 1;
    }
    assert pick[..i] == pick;
    var renames := RenamesOf(spec);
    var k := 0;
    while k < |renames|
      invariant 0 <= k <= |renames| && meta == Renamed(Picked(pick, row), renames[..k])
    {
      assert renames[..k + 1][..k] == renames[..k];
      var (oldKey, newKey) := renames[k];
      if oldKey in meta {
        meta := meta[newKey := meta[oldKey]];
        meta := meta - {oldKey};
      }
      k := k + 1;
    }
    assert renames[..k] == renames;
  }

  /** The picked columns are the requested ones the row has, with the row's values. */
  lemma {:induction false} PickedExact(pick: seq<Json>, row: Row, k: string)
    ensures k in Picked(pick, row) <==> k in row && exists i :: 0 <= i < |pick| && pick[i] == Str(k)
    ensures k in Picked(pick, row) ==> Picked(pick, row)[k] == row[k]
  {
    if pick != [] {
      var n := |pick| - 1;
      PickedExact(pick[..n], row, k);
      if exists i :: 0 <= i < n && pick[..n][i] == Str(k) {
        var i :| 0 <= i < n && pick[..n][i] == Str(k);
        assert pick[i] == Str(k);
      }
      assert pick[n] == Str(k) ==> exists i :: 0 <= i < |pick| && pick[i] == Str(k);
      assert forall i :: 0 <= i < n ==> pick[..n][i] == pick[i];
    }
  }

  /** A rename moves one value to its new key, over what was there; a rename to itself loses the key. */
  lemma RenameExact(m: map<string, string>, from: string, to: string, k: string)
    ensures from !in m ==> Rename(m, (from, to)) == m
    ensures from in m && from != to ==>
      var r := Rename(m, (from, to)); to in r && r[to] == m[from] && from !in r
    ensures from == to ==> from !in Rename(m, (from, to))
    ensures k != from && k != to ==>
      (k in Rename(m, (from, to)) <==> k in m) && (k in m ==> Rename(m, (from, to))[k] == m[k])
  {
  }

  /** Renames happen one after the other, in the configuration's order. */
  lemma {:induction false} RenamedConcat(m: map<string, string>, a: seq<(string, string)>, b: seq<(string, string)>)
    ensures Renamed(m, a + b) == Renamed(Renamed(m, a), b)
    ensures |b| == 1 ==> Renamed(m, a + b) == Rename(Renamed(m, a), b[0])
  {
    if b == [] {
      assert a + b == a;
    } else {
      assert (a + b)[..|a + b| - 1] == a + b[..|b| - 1];
      RenamedConcat(m, a, b[..|b| - 1]);
      assert |b| == 1 ==> a + b[..|b| - 1] == a;
    }
  }

  /** Which renames are asked for: the fields with a string, in their order. */
  lemma {:induction false} RenamesConcat(a: seq<(string, Json)>, b: seq<(string, Json)>)
    ensures Renames(a + b) == Renames(a) + Renames(b)
    ensures forall k, x :: Renames([(k, Str(x))]) == [(k, x)]
    ensures forall k, j: Json :: !j.Str? ==> Renames([(k, j)]) == []
  {
    assert forall f: (string, Json) :: [f][..0] == [];
    if b == [] {
      assert a + b == a;
    } else {
      assert (a + b)[..|a + b| - 1] == a + b[..|b| - 1];
      RenamesConcat(a, b[..|b| - 1]);
    }
  }

  // ----- document id formats

  /** Index of the next closing brace at or after `from`. */
  function FindBrace(fmt: string, from: nat): (j: Option<nat>)
    ensures j.Some? ==> from <= j.value < |fmt| && fmt[j.value] == '}'
    ensures j.None? ==> forall k :: from <= k < |fmt| ==> fmt[k] != '}'
    decreases |fmt| - from
  {
    if from >= |fmt| then None else if fmt[from] == '}' then Some(from) else FindBrace(fmt, from + 1)
  }

  datatype Piece = Literal(c: char) | ColumnRef(name: string)

  /** The piece of a format that starts at `i`, and where the next one starts. */
  function PieceAt(fmt: string, i: nat): (r: (Piece, nat))
    requires i < |fmt|
    ensures i < r.1 <= |fmt|
  {
    if fmt[i] == '{' && FindBrace(fmt, i + 1).Some? then
      var j := FindBrace(fmt, i + 1).value;
      (ColumnRef(fmt[i + 1..j]), j + 1)
    else (Literal(fmt[i]), i + 1)
  }

  function PieceText(p: Piece, row: Row): string {
    match p
    case Literal(c) => [c]
    case ColumnRef(name) => Text(row, name)
  }

  function Format(fmt: string, i: nat, row: Row): string
    requires i <= |fmt|
    decreases |fmt| - i
  {
    if i == |fmt| then ""
    else
      var (p, next) := PieceAt(fmt, i);
      PieceText(p, row) + Format(fmt, next, row)
  }

  /** The columns a format names, one entry per occurrence. */
  function FormatColumns(fmt: string, i: nat): seq<string>
    requires i <= |fmt|
    decreases |fmt| - i
  {
    if i == |fmt| then []
    else
      var (p, next) := PieceAt(fmt, i);
      (if p.ColumnRef? then [p.name] else []) + FormatColumns(fmt, next)
  }

  /** `apply_format`. */
  method ApplyFormat(fmt: string, row: Row) returns (out: string)
    ensures out == Format(fmt, 0, row)
  {
    out := "";
    var i := 0;
    while i < |fmt|
      invariant 0 <= i <= |fmt| && Format(fmt, 0, row) == out + Format(fmt, i, row)
    {
      FormatStep(fmt, i, row, out);
      var text, last := NextPiece(fmt, i, row);
      out := out + text;
      i := last + 1;
    }
    assert out + "" == out;
  }

  /** One turn of that loop: a literal character, or the text of a column and the place of its brace. */
  method NextPiece(fmt: string, i: nat, row: Row) returns (text: string, last: nat)
    requires i < |fmt|
    ensures text == PieceText(PieceAt(fmt, i).0, row) && last + 1 == PieceAt(fmt, i).1
  {
    text, last := [fmt[i]], i;
    if fmt[i] == '{' {
      var j := FindBrace(fmt, i + 1);
      if j.Some? {
        text, last := Text(row, fmt[i + 1..j.value]), j.value;
      }
    }
  }

  lemma FormatStep(fmt: string, i: nat, row: Row, out: string)
    requires i < |fmt|
    ensures var (p, next) := PieceAt(fmt, i);
      out + Format(fmt, i, row) == (out + PieceText(p, row)) + Format(fmt, next, row)
  {
    var (p, next) := PieceAt(fmt, i);
    assert out + (PieceText(p, row) + Format(fmt, next, row)) == (out + PieceText(p, row)) + Format(fmt, next, row);
  }

  /** How a format is written: characters that open no brace, and columns in braces. */
  function Written(ps: seq<Piece>): string {
    if ps == [] then ""
    else (if ps[0].Literal? then [ps[0].c] else "{" + ps[0].name + "}") + Written(ps[1..])
  }

  ghost predicate Plain(ps: seq<Piece>) {
    forall i :: 0 <= i < |ps| ==> if ps[i].Literal? then ps[i].c != '{' else '}' !in ps[i].name
  }

  function Values(ps: seq<Piece>, row: Row): string {
    if ps == [] then ""
    else (if ps[0].Literal? then [ps[0].c] else if ps[0].name in row then row[ps[0].name] else "")
         + Values(ps[1..], row)
  }

  lemma {:induction false} BraceFound(fmt: string, from: nat, j: nat)
    requires from <= j < |fmt| && fmt[j] == '}' && forall k :: from <= k < j ==> fmt[k] != '}'
    ensures FindBrace(fmt, from) == Some(j)
    decreases j - from
  {
    if from < j {
      BraceFound(fmt, from + 1, j);
    }
  }

  lemma ColumnReadBack(fmt: string, i: nat, name: string, rest: string)
    requires i <= |fmt| && fmt[i..] == "{" + name + "}" + rest && '}' !in name
    ensures i < |fmt| && PieceAt(fmt, i) == (ColumnRef(name), i + |name| + 2) && fmt[i + |name| + 2..] == rest
  {
    var tail, j := fmt[i..], i + 1 + |name|;
    assert forall k :: 0 <= k < |tail| ==> fmt[i + k] == tail[k];
    assert tail[0] == '{' && tail[1 + |name|] == '}';
    forall k | i + 1 <= k < j ensures fmt[k] == name[k - i - 1] && fmt[k] != '}' {
      assert fmt[k] == tail[k - i];
    }
    assert fmt[i] == '{' && fmt[j] == '}' && fmt[i + 1..j] == name;
    BraceFound(fmt, i + 1, j);
    assert fmt[j + 1..] == tail[|name| + 2..] == rest;
  }

  lemma LiteralReadBack(fmt: string, i: nat, c: char, rest: string)
    requires i <= |fmt| && fmt[i..] == [c] + rest && c != '{'
    ensures i < |fmt| && PieceAt(fmt, i) == (Literal(c), i + 1) && fmt[i + 1..] == rest
  {
    var tail := fmt[i..];
    assert fmt[i] == tail[0] && fmt[i + 1..] == tail[1..];
  }

  lemma {:induction false} FormatFrom(fmt: string, i: nat, ps: seq<Piece>, row: Row)
    requires i <= |fmt| && fmt[i..] == Written(ps) && Plain(ps)
    ensures Format(fmt, i, row) == Values(ps, row)
    decreases |ps|
  {
    if ps != [] {
      if ps[0].Literal? {
        LiteralReadBack(fmt, i, ps[0].c, Written(ps[1..]));
      } else {
        ColumnReadBack(fmt, i, ps[0].name, Written(ps[1..]));
      }
      FormatFrom(fmt, PieceAt(fmt, i).1, ps[1..], row);
    }
  }

  /** A written format gives its characters and the values of its columns, in order. */
  lemma FormatRoundTrip(ps: seq<Piece>, row: Row)
    requires Plain(ps)
    ensures Format(Written(ps), 0, row) == Values(ps, row)
  {
    FormatFrom(Written(ps), 0, ps, row);
  }

  // ----- the document and the embedding input

  function FormatOf(src: Source): Option<string> {
    match Get2(src.docMap, "doc_id", "format")
    case Some(Str(s)) => Some(s)
    case _ => None
  }

  function DocId(src: Source, row: Row): string {
    match FormatOf(src)
    case Some(fmt) => Format(fmt, 0, row)
    case None => src.table + ":" + Text(row, src.pk)
  }

  function Field(src: Source, name: string, row: Row): Result<string> {
    match Get2(src.docMap, name, "concat")
    case Some(spec) => Concat(spec, row, "", false)
    case None => Ok("")
  }

  function MetadataOf(src: Source, row: Row): map<string, string> {
    match Get(src.docMap, "metadata")
    case Some(spec) => Metadata(spec, row)
    case None => map[]
  }

  /** `build_document_from_row`. */
  method BuildDocument(src: Source, row: Row) returns (r: Result<Doc>)
    ensures r.Ok? <==> Field(src, "title", row).Ok? && Field(src, "body", row).Ok?
    ensures r.Ok? ==> Field(src, "title", row) == Ok(r.value.title) && Field(src, "body", row) == Ok(r.value.body)
    ensures r.Ok? ==> r.value.docId == DocId(src, row) && r.value.metadata == MetadataOf(src, row)
    ensures r.Ok? ==> r.value.pk == (src.pk, Text(row, src.pk))
  {
    var docId;
    if FormatOf(src).Some? {
      docId := ApplyFormat(FormatOf(src).value, row);
    } else {
      docId := src.table + ":" + Text(row, src.pk);
    }
    var title, body := Ok(""), Ok("");
    if Get2(src.docMap, "title", "concat").Some? {
      title := EvalConcat(Get2(src.docMap, "title", "concat").value, row, "", false);
    }
    if title.TypeError? {
      return TypeError;
    }
    if Get2(src.docMap, "body", "concat").Some? {
      body := EvalConcat(Get2(src.docMap, "body", "concat").value, row, "", false);
    }
    if body.TypeError? {
      return TypeError;
    }
    var meta := map[];
    if Get(src.docMap, "metadata").Some? {
      meta := BuildMetadata(Get(src.docMap, "metadata").value, row);
    }
    return Ok(Doc(docId, (src.pk, Text(row, src.pk)), title.value, body.value, meta));
  }

  /** `build_embedding_input`. */
  function EmbeddingInput(e: Embedding, row: Row, chunk: string): Result<string> {
    if !e.enabled then Ok("")
    else match Get(e.input, "concat")
      case Some(Arr(items)) => Parts(items, row, chunk, true)
      case _ => Ok(chunk)
  }

  /** Which part of the mapping each part of a document comes from. */
  lemma MappedDocument(src: Source, row: Row, meta: Json, pick: seq<Json>, rename: seq<(string, Json)>)
    ensures Get2(src.docMap, "doc_id", "format").Some? && Get2(src.docMap, "doc_id", "format").value.Str? ==>
      DocId(src, row) == Format(Get2(src.docMap, "doc_id", "format").value.s, 0, row)
    ensures Get2(src.docMap, "title", "concat").Some? && Get2(src.docMap, "title", "concat").value.Arr? ==>
      Field(src, "title", row) == Parts(Get2(src.docMap, "title", "concat").value.items, row, "", false)
    ensures Get2(src.docMap, "body", "concat").Some? && Get2(src.docMap, "body", "concat").value.Arr? ==>
      Field(src, "body", row) == Parts(Get2(src.docMap, "body", "concat").value.items, row, "", false)
    ensures Get(src.docMap, "metadata") == Some(meta) && Get(meta, "pick") == Some(Arr(pick))
            && Get(meta, "rename") == Some(Obj(rename)) ==>
      MetadataOf(src, row) == Renamed(Picked(pick, row), Renames(rename))
  {
  }

  /** What a document is without a mapping: the table and the primary key name it, and it is empty. */
  lemma UnmappedDocument(table: string, pk: string, row: Row)
    ensures var src := Source(table, pk, Obj([]));
      && Field(src, "title", row) == Field(src, "body", row) == Ok("") && MetadataOf(src, row) == map[]
      && DocId(src, row) == table + ":" + if pk in row then row[pk] else ""
  {
  }

  /** What is embedded: nothing, the chunk alone, or what the configuration puts together around it. */
  lemma EmbeddingInputExact(e: Embedding, row: Row, chunk: string)
    ensures !e.enabled ==> EmbeddingInput(e, row, chunk) == Ok("")
    ensures e.enabled && (Get(e.input, "concat").None? || !Get(e.input, "concat").value.Arr?) ==>
      EmbeddingInput(e, row, chunk) == Ok(chunk)
    ensures e.enabled && e.input == Obj([("concat", Arr([ItemJson(Lit("q: ")), ItemJson(ChunkBody(true))]))]) ==>
      EmbeddingInput(e, row, chunk) == Ok("q: " + chunk)
  {
    var a, b := ItemJson(Lit("q: ")), ItemJson(ChunkBody(true));
    assert [a, b] == [a] + [b];
    OnePart(a, row, chunk, true);
    OnePart(b, row, chunk, true);
    ItemText(Lit("q: "), row, chunk, true);
    ItemText(ChunkBody(true), row, chunk, true);
    PartsConcat([a], [b], row, chunk, true);
  }

  // ----- the columns that are selected

  function Column(p: Json): seq<string> {
    match Get(p, "col")
    case Some(Str(s)) => [s]
    case _ => []
  }

  function Columns(ps: seq<Json>): seq<string> {
    if ps == [] then [] else Columns(ps[..|ps| - 1]) + Column(ps[|ps| - 1])
  }

  function SpecColumns(spec: Option<Json>): seq<string> {
    match spec
    case Some(Arr(items)) => Columns(items)
    case _ => []
  }

  function Strings(js: seq<Json>): seq<string> {
    if js == [] then []
    else if js[|js| - 1].Str? then Strings(js[..|js| - 1]) + [js[|js| - 1].s] else Strings(js[..|js| - 1])
  }

  /** Every column mentioned anywhere but in the document id format. */
  function Mentioned(src: Source, e: Embedding): seq<string> {
    [src.pk] + SpecColumns(Get2(src.docMap, "title", "concat")) + SpecColumns(Get2(src.docMap, "body", "concat"))
    + (match Get(src.docMap, "metadata") case Some(m) => Strings(PickOf(m)) case None => [])
    + if e.enabled then SpecColumns(Get(e.input, "concat")) else []
  }

  ghost predicate SameColumns(a: seq<string>, b: seq<string>) {
    forall x :: x in a <==> x in b
  }

  /** `add_unique`, for each of `more` in turn. */
  method AddAll(cols: seq<string>, more: seq<string>) returns (r: seq<string>)
    requires NoDup(cols)
    ensures NoDup(r) && SameColumns(r, cols + more) && cols <= r
  {
    r := cols;
    var i := 0;
    while i < |more|
      invariant 0 <= i <= |more| && NoDup(r) && SameColumns(r, cols + more[..i]) && cols <= r
    {
      assert more[..i + 1] == more[..i] + [more[i]];
      var found, k := false, 0;
      while k < |r| && !found
        invariant 0 <= k <= |r|
        invariant found ==> more[i] in r
        invariant !found ==> forall m :: 0 <= m < k ==> r[m] != more[i]
        decreases |r| - k, !found
      {
        if r[k] == more[i] {
          found := true;
        } else {
          k := k + 1;
        }
      }
      if !found {
        r := r + [more[i]];
      }
      i := i + 1;
    }
    assert more[..i] == more;
  }

  /** `collect_needed_columns`: every mentioned column once, the primary key first. */
  method CollectNeededColumns(src: Source, e: Embedding) returns (cols: seq<string>)
    ensures NoDup(cols) && SameColumns(cols, Mentioned(src, e)) && |cols| > 0 && cols[0] == src.pk
  {
    cols := AddAll([], [src.pk]);
    assert [] + [src.pk] == [src.pk];
    assert src.pk in cols && cols[0] in cols;
    cols := AddAll(cols, SpecColumns(Get2(src.docMap, "title", "concat")));
    cols := AddAll(cols, SpecColumns(Get2(src.docMap, "body", "concat")));
    if Get(src.docMap, "metadata").Some? {
      cols := AddAll(cols, Strings(PickOf(Get(src.docMap, "metadata").value)));
    }
    if e.enabled {
      cols := AddAll(cols, SpecColumns(Get(e.input, "concat")));
    }
  }

  lemma {:induction false} ColumnsExact(ps: seq<Json>, x: string)
    ensures x in Columns(ps) <==> exists i :: 0 <= i < |ps| && Get(ps[i], "col") == Some(Str(x))
  {
    if ps != [] {
      var n := |ps| - 1;
      ColumnsExact(ps[..n], x);
      if exists i :: 0 <= i < n && Get(ps[..n][i], "col") == Some(Str(x)) {
        var i :| 0 <= i < n && Get(ps[..n][i], "col") == Some(Str(x));
        assert Get(ps[i], "col") == Some(Str(x));
      }
      if i :| 0 <= i < n && Get(ps[i], "col") == Some(Str(x)) {
        assert Get(ps[..n][i], "col") == Some(Str(x));
      }
      assert Get(ps[n], "col") == Some(Str(x)) <==> x in Column(ps[n]);
    }
  }

  lemma {:induction false} StringsExact(js: seq<Json>, x: string)
    ensures x in Strings(js) <==> exists i :: 0 <= i < |js| && js[i] == Str(x)
  {
    if js != [] {
      var n := |js| - 1;
      StringsExact(js[..n], x);
      if i :| 0 <= i < n && js[..n][i] == Str(x) {
        assert js[i] == Str(x);
      }
      if i :| 0 <= i < n && js[i] == Str(x) {
        assert js[..n][i] == Str(x);
      }
      assert js[n] == Str(x) ==> exists i :: 0 <= i < |js| && js[i] == Str(x);
    }
  }

  ghost predicate NamesColumn(spec: Option<Json>, x: string) {
    spec.Some? && spec.value.Arr?
    && exists i :: 0 <= i < |spec.value.items| && Get(spec.value.items[i], "col") == Some(Str(x))
  }

  /** A column is collected for one of five reasons and no other. */
  lemma MentionedExact(src: Source, e: Embedding, x: string)
    ensures x in Mentioned(src, e) <==>
      || x == src.pk
      || NamesColumn(Get2(src.docMap, "title", "concat"), x) || NamesColumn(Get2(src.docMap, "body", "concat"), x)
      || (Get(src.docMap, "metadata").Some? && Str(x) in PickOf(Get(src.docMap, "metadata").value))
      || (e.enabled && NamesColumn(Get(e.input, "concat"), x))
  {
    SpecColumnsExact(Get2(src.docMap, "title", "concat"), x);
    SpecColumnsExact(Get2(src.docMap, "body", "concat"), x);
    SpecColumnsExact(Get(e.input, "concat"), x);
    if Get(src.docMap, "metadata").Some? {
      StringsExact(PickOf(Get(src.docMap, "metadata").value), x);
    }
  }

  lemma SpecColumnsExact(spec: Option<Json>, x: string)
    ensures x in SpecColumns(spec) <==> NamesColumn(spec, x)
  {
    if spec.Some? && spec.value.Arr? {
      ColumnsExact(spec.value.items, x);
    }
  }

  // ----- building from the selected columns gives the same document

  /** The row a SELECT of `cols` returns. */
  function Restrict(row: Row, cols: set<string>): Row {
    map c | c in row && c in cols :: row[c]
  }

  ghost predicate Covers(cols: set<string>, names: seq<string>) {
    forall x :: x in names ==> x in cols
  }

  lemma {:induction false} PartsAgree(ps: seq<Json>, row: Row, cols: set<string>, chunk: string, allowChunk: bool)
    requires Covers(cols, Columns(ps))
    ensures Parts(ps, Restrict(row, cols), chunk, allowChunk) == Parts(ps, row, chunk, allowChunk)
  {
    if ps != [] {
      PartsAgree(ps[..|ps| - 1], row, cols, chunk, allowChunk);
      var p := ps[|ps| - 1];
      assert forall x :: x in Column(p) ==> x in Columns(ps);
      if Get(p, "col").Some? && Get(p, "col").value.Str? {
        assert Column(p) == [Get(p, "col").value.s];
      }
    }
  }

  lemma {:induction false} PickedAgree(pick: seq<Json>, row: Row, cols: set<string>)
    requires Covers(cols, Strings(pick))
    ensures Picked(pick, Restrict(row, cols)) == Picked(pick, row)
  {
    if pick != [] {
      var last := pick[|pick| - 1];
      PickedAgree(pick[..|pick| - 1], row, cols);
      assert last.Str? ==> Strings(pick)[|Strings(pick)| - 1] == last.s;
    }
  }

  lemma FieldAgrees(src: Source, name: string, row: Row, cols: set<string>)
    requires Covers(cols, SpecColumns(Get2(src.docMap, name, "concat")))
    ensures Field(src, name, Restrict(row, cols)) == Field(src, name, row)
  {
    match Get2(src.docMap, name, "concat")
    case Some(Arr(items)) => PartsAgree(items, row, cols, "", false);
    case _ =>
  }

  /**
   * For every mapping and row, and any selection that includes the collected columns,
   * every part of the document but its id is what the full row gives, errors included.
   */
  lemma ProjectionPreservesDocument(src: Source, e: Embedding, row: Row, cols: set<string>, chunk: string)
    requires Covers(cols, Mentioned(src, e))
    ensures var part := Restrict(row, cols);
      && Text(part, src.pk) == Text(row, src.pk)
      && Field(src, "title", part) == Field(src, "title", row)
      && Field(src, "body", part) == Field(src, "body", row)
      && MetadataOf(src, part) == MetadataOf(src, row)
      && EmbeddingInput(e, part, chunk) == EmbeddingInput(e, row, chunk)
      && (FormatOf(src).None? ==> DocId(src, part) == DocId(src, row))
  {
    assert src.pk in Mentioned(src, e);
    FieldAgrees(src, "title", row, cols);
    FieldAgrees(src, "body", row, cols);
    if Get(src.docMap, "metadata").Some? {
      PickedAgree(PickOf(Get(src.docMap, "metadata").value), row, cols);
    }
    if e.enabled && Get(e.input, "concat").Some? && Get(e.input, "concat").value.Arr? {
      PartsAgree(Get(e.input, "concat").value.items, row, cols, chunk, true);
    }
  }

  // ----- the document id needs more

  /** A format column that the selection does not take away. */
  ghost predicate Harmless(row: Row, cols: set<string>, col: string) {
    col in cols || col !in row || row[col] == ""
  }

  ghost predicate AllHarmless(row: Row, cols: set<string>, names: seq<string>) {
    forall c :: c in names ==> Harmless(row, cols, c)
  }

  lemma HarmlessFirst(row: Row, cols: set<string>, col: string, rest: seq<string>)
    ensures AllHarmless(row, cols, [col] + rest) <==> Harmless(row, cols, col) && AllHarmless(row, cols, rest)
  {
    assert forall c :: c in [col] + rest <==> c == col || c in rest;
  }

  /** Dropping a column from a row leaves its text as it was, or shortens it to nothing. */
  lemma TextShrinks(row: Row, cols: set<string>, col: string)
    ensures var a, b := Text(Restrict(row, cols), col), Text(row, col);
      if Harmless(row, cols, col) then a == b else |a| < |b|
  {
  }

  /** Harmless formats give the same id; any other gives a strictly shorter one. */
  lemma {:induction false} FormatShrinks(fmt: string, i: nat, row: Row, cols: set<string>)
    requires i <= |fmt|
    ensures var a, b := Format(fmt, i, Restrict(row, cols)), Format(fmt, i, row);
      if AllHarmless(row, cols, FormatColumns(fmt, i)) then a == b else |a| < |b|
    decreases |fmt| - i
  {
    if i < |fmt| {
      var (p, next) := PieceAt(fmt, i);
      FormatShrinks(fmt, next, row, cols);
      if p.ColumnRef? {
        HarmlessFirst(row, cols, p.name, FormatColumns(fmt, next));
        TextShrinks(row, cols, p.name);
      } else {
        assert [] + FormatColumns(fmt, next) == FormatColumns(fmt, next);
      }
    }
  }

  /**
   * The document id survives the projection exactly when every column its format names
   * is selected, absent from the table, or empty in this row.
   */
  lemma DocIdAgreesExactly(src: Source, row: Row, cols: set<string>, fmt: string)
    requires FormatOf(src) == Some(fmt)
    ensures DocId(src, Restrict(row, cols)) == DocId(src, row) <==> AllHarmless(row, cols, FormatColumns(fmt, 0))
  {
    FormatShrinks(fmt, 0, row, cols);
  }

  /** So a configuration is safe for every row exactly when it selects every column of the format. */
  lemma DocIdSafeExactly(src: Source, cols: set<string>, fmt: string)
    requires FormatOf(src) == Some(fmt)
    ensures (forall row: Row :: DocId(src, Restrict(row, cols)) == DocId(src, row))
      <==> Covers(cols, FormatColumns(fmt, 0))
  {
    if Covers(cols, FormatColumns(fmt, 0)) {
      forall row: Row ensures DocId(src, Restrict(row, cols)) == DocId(src, row) {
        DocIdAgreesExactly(src, row, cols, fmt);
      }
    } else {
      var c :| c in FormatColumns(fmt, 0) && c !in cols;
      var row: Row := map[c := "x"];
      assert !Harmless(row, cols, c);
      DocIdAgreesExactly(src, row, cols, fmt);
    }
  }

  /** The collected columns do not include those of the format: two rows can collapse into one id. */
  lemma FormatColumnsAreNotCollected()
    ensures var fmt := "{k}";
      var src := Source("t", "id", Obj([("doc_id", Obj([("format", Str(fmt))]))]));
      && FormatOf(src) == Some(fmt) && FormatColumns(fmt, 0) == ["k"]
      && Mentioned(src, Embedding(false, Null)) == ["id"]
      && DocId(src, map["id" := "1", "k" := "a"]) == "a"
      && DocId(src, Restrict(map["id" := "1", "k" := "a"], {"id"})) == ""
  {
    var fmt := "{k}";
    var inner := Obj([("format", Str(fmt))]);
    var src := Source("t", "id", Obj([("doc_id", inner)]));
    assert Get(src.docMap, "doc_id") == Some(inner);
    assert Find(inner.fields, "format") == Some(Str(fmt));
    assert Get(inner, "format") == Some(Str(fmt));
    assert FindBrace(fmt, 2) == Some(2);
    assert FindBrace(fmt, 1) == Some(2);
    assert fmt[1..2] == "k" && PieceAt(fmt, 0) == (ColumnRef("k"), 3);
    assert FormatColumns(fmt, 0) == ["k"] + FormatColumns(fmt, 3);
    forall key | key == "title" || key == "body" || key == "metadata" ensures Get(src.docMap, key) == None {
      OnlyKey("doc_id", inner, key);
    }
    var row: Row := map["id" := "1", "k" := "a"];
    assert Format(fmt, 3, row) == "" && Format(fmt, 0, row) == "a" + "";
    var part := Restrict(row, {"id"});
    assert "k" !in part;
    assert Format(fmt, 3, part) == "" && Format(fmt, 0, part) == "" + "";
  }
}
