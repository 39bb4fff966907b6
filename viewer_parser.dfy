/** The fixed-width parser of the stand-alone data viewer (backend/dataviewer.py):
    a second layout of 60 columns, cut by a list of slices and shown in a
    table whose columns are named and sized by a separate list of widths. */
module ViewerParser {
  import opened Text

  /** A column of the viewer: its heading and its width in characters. */
  datatype Column = Column(name: string, width: nat)

  /** The half-open range [start, end) of positions one value is cut from. */
  datatype Slice = Slice(start: nat, end: nat)

  // The column list, as its headings and its widths, ten at a time.
  const Headings0To9: seq<string> := [
    "N° DOSSIER",
    "REFERENCE DOSSIER",
    "NUMERO INTERLOCUTEUR",
    "GUID INTERLOCUTEUR",
    "TYPE DE DEMANDE D'ENQUÊTE",
    "NUMERO DEMANDE ENQUETE",
    "NUMERO DEMANDE ENQUETE CONTESTEE",
    "NUMERO DEMANDE ENQUETE INITIALE",
    "FORFAIT DEMANDE",
    "DATE DE RETOUR ESPERE"
  ]

  const Headings10To19: seq<string> := [
    "QUALITE",
    "NOM",
    "PRENOM",
    "DATE DE NAISSANCE",
    "LIEU DE NAISSANCE",
    "CODE POSTAL NAISSANCE",
    "PAYS DE NAISSANCE",
    "NOM PATRONYMIQUE",
    "DATE DE RETOUR",
    "CODE RESULTAT DE L'ENQUETE"
  ]

  const Headings20To29: seq<string> := [
    "ELEMENTS RETROUVES",
    "FLAG état civil erroné",
    "NUMERO DE FACTURE",
    "DATE DE FACTURE",
    "MONTANT FACTURE",
    "TARIF APPLIQUE",
    "CUMUL DES MONTANTS PRECEDEMMENT FACTURES",
    "REPRISE DE FACTURATION",
    "REMISE EVENTUELLE",
    "DATE DE DECES"
  ]

  const Headings30To39: seq<string> := [
    "N° ACTE DE DECES",
    "CODE INSEE DECES",
    "CODE POSTAL DECES",
    "LOCALITE DECES",
    "ADRESSE 1",
    "ADRESSE 2",
    "ADRESSE 3",
    "ADRESSE 4",
    "CODE POSTAL",
    "VILLE"
  ]

  const Headings40To49: seq<string> := [
    "PAYS RESIDENCE",
    "TELEPHONE PERSONNEL",
    "TELEPHONE CHEZ L'EMPLOYEUR",
    "NOM DE L'EMPLOYEUR",
    "TELEPHONE DE L'EMPLOYEUR",
    "TELECOPIE EMPLOYEUR",
    "ADRESSE 1 DE L'EMPLOYEUR",
    "ADRESSE 2 DE L'EMPLOYEUR",
    "ADRESSE 3 DE L'EMPLOYEUR",
    "ADRESSE 4 DE L'EMPLOYEUR"
  ]

  const Headings50To59: seq<string> := [
    "CODE POSTAL DE L'EMPLOYEUR",
    "VILLE DE L'EMPLOYEUR",
    "PAYS DE L'EMPLOYEUR",
    "BANQUE DE DOMICILIATION",
    "LIBELLE GUICHET",
    "TITULAIRE DU COMPTE",
    "CODE BANQUE",
    "CODE GUICHET",
    "NUMERO DE COMPTE",
    "RIB DU COMPTE"
  ]

  const Widths0To9: seq<nat> := [10, 15, 12, 36, 3, 11, 11, 11, 16, 10]
  const Widths10To19: seq<nat> := [10, 30, 20, 10, 50, 10, 32, 30, 10, 1]
  const Widths20To29: seq<nat> := [10, 1, 9, 10, 8, 8, 8, 8, 8, 10]
  const Widths30To39: seq<nat> := [10, 5, 10, 32, 32, 32, 32, 32, 10, 32]
  const Widths40To49: seq<nat> := [32, 15, 15, 32, 15, 15, 32, 32, 32, 32]
  const Widths50To59: seq<nat> := [10, 32, 32, 32, 30, 32, 5, 5, 11, 2]

  const Headings: seq<string> :=
    Headings0To9 + Headings10To19 + Headings20To29 + Headings30To39 + Headings40To49 + Headings50To59

  const Widths: seq<nat> :=
    Widths0To9 + Widths10To19 + Widths20To29 + Widths30To39 + Widths40To49 + Widths50To59

  /** The 60 columns of the viewer, in display order: the i-th heading with
      the i-th width. */
  const Columns: seq<Column> :=
    seq(|Widths|, i requires 0 <= i < |Widths| => Column(if i < |Headings| then Headings[i] else "", Widths[i]))

  // The slices `parse_line` cuts, ten at a time.
  const Slices0To9: seq<Slice> := [
    Slice(0, 10),
    Slice(10, 25),
    Slice(25, 37),
    Slice(37, 73),
    Slice(73, 76),
    Slice(76, 87),
    Slice(87, 98),
    Slice(98, 109),
    Slice(109, 125),
    Slice(125, 135)
  ]

  const Slices10To19: seq<Slice> := [
    Slice(135, 145),
    Slice(145, 175),
    Slice(175, 195),
    Slice(195, 205),
    Slice(205, 255),
    Slice(255, 265),
    Slice(265, 297),
    Slice(297, 327),
    Slice(327, 337),
    Slice(337, 338)
  ]

  const Slices20To29: seq<Slice> := [
    Slice(338, 348),
    Slice(348, 349),
    Slice(349, 358),
    Slice(358, 368),
    Slice(368, 376),
    Slice(376, 384),
    Slice(384, 392),
    Slice(392, 400),
    Slice(400, 408),
    Slice(408, 418)
  ]

  const Slices30To39: seq<Slice> := [
    Slice(418, 428),
    Slice(428, 433),
    Slice(433, 443),
    Slice(443, 475),
    Slice(475, 507),
    Slice(507, 539),
    Slice(539, 571),
    Slice(571, 603),
    Slice(603, 613),
    Slice(613, 645)
  ]

  const Slices40To49: seq<Slice> := [
    Slice(645, 677),
    Slice(677, 692),
    Slice(692, 707),
    Slice(707, 739),
    Slice(739, 754),
    Slice(754, 769),
    Slice(769, 801),
    Slice(801, 833),
    Slice(833, 865),
    Slice(865, 897)
  ]

  const Slices50To59: seq<Slice> := [
    Slice(897, 907),
    Slice(907, 939),
    Slice(939, 971),
    Slice(971, 1003),
    Slice(1003, 1033),
    Slice(1033, 1065),
    Slice(1065, 1070),
    Slice(1070, 1075),
    Slice(1075, 1086),
    Slice(1086, 1088)
  ]

  /** The 60 slices, in the order of the values they produce. */
  const Slices: seq<Slice> :=
    Slices0To9 + Slices10To19 + Slices20To29 + Slices30To39 + Slices40To49 + Slices50To59

  /** `slices` covers [from, to) slice after slice, with no empty slice. */
  predicate Tiles(slices: seq<Slice>, from: nat, to: nat) {
    |slices| > 0 && slices[0].start == from && slices[|slices| - 1].end == to
    && (forall i :: 0 < i < |slices| ==> slices[i].start == slices[i - 1].end)
    && (forall i :: 0 <= i < |slices| ==> from <= slices[i].start < slices[i].end <= to)
  }

  /** Each slice is exactly as wide as the width at the same position. */
  predicate Sized(slices: seq<Slice>, widths: seq<nat>) {
    |slices| == |widths| && forall i :: 0 <= i < |slices| ==> slices[i].start + widths[i] == slices[i].end
  }

  lemma TilesAppend(s1: seq<Slice>, s2: seq<Slice>, from: nat, mid: nat, to: nat)
    requires Tiles(s1, from, mid) && Tiles(s2, mid, to)
    ensures Tiles(s1 + s2, from, to)
  {
    var s := s1 + s2;
    forall i | 0 < i < |s| ensures s[i].start == s[i - 1].end {
      if i > |s1| {
        assert s[i] == s2[i - |s1|] && s[i - 1] == s2[i - 1 - |s1|];
      }
    }
  }

  lemma SizedAppend(s1: seq<Slice>, w1: seq<nat>, s2: seq<Slice>, w2: seq<nat>)
    requires Sized(s1, w1) && Sized(s2, w2)
    ensures Sized(s1 + s2, w1 + w2)
  {
    var s, w := s1 + s2, w1 + w2;
    forall i | 0 <= i < |s| ensures s[i].start + w[i] == s[i].end {
      if i >= |s1| {
        assert s[i] == s2[i - |s1|] && w[i] == w2[i - |s1|];
      }
    }
  }

  // Each block of ten slices tiles its part of the line and agrees with its
  // block of widths; the proofs go five slices at a time.
  lemma Slices0To9Tile()
    ensures Tiles(Slices0To9, 0, 135)
  {
    assert forall i :: 0 < i < 5 ==> Slices0To9[i].start == Slices0To9[i - 1].end;
    assert forall i :: 5 <= i < 10 ==> Slices0To9[i].start == Slices0To9[i - 1].end;
    assert forall i :: 0 <= i < 5 ==> 0 <= Slices0To9[i].start < Slices0To9[i].end <= 135;
    assert forall i :: 5 <= i < 10 ==> 0 <= Slices0To9[i].start < Slices0To9[i].end <= 135;
  }

  lemma Slices0To9Sized()
    ensures Sized(Slices0To9, Widths0To9)
  {
    assert forall i :: 0 <= i < 5 ==> Slices0To9[i].start + Widths0To9[i] == Slices0To9[i].end;
    assert forall i :: 5 <= i < 10 ==> Slices0To9[i].start + Widths0To9[i] == Slices0To9[i].end;
  }

  lemma Slices10To19Tile()
    ensures Tiles(Slices10To19, 135, 338)
  {
    assert forall i :: 0 < i < 5 ==> Slices10To19[i].start == Slices10To19[i - 1].end;
    assert forall i :: 5 <= i < 10 ==> Slices10To19[i].start == Slices10To19[i - 1].end;
    assert forall i :: 0 <= i < 5 ==> 135 <= Slices10To19[i].start < Slices10To19[i].end <= 338;
    assert forall i :: 5 <= i < 10 ==> 135 <= Slices10To19[i].start < Slices10To19[i].end <= 338;
  }

  lemma Slices10To19Sized()
    ensures Sized(Slices10To19, Widths10To19)
  {
    assert forall i :: 0 <= i < 5 ==> Slices10To19[i].start + Widths10To19[i] == Slices10To19[i].end;
    assert forall i :: 5 <= i < 10 ==> Slices10To19[i].start + Widths10To19[i] == Slices10To19[i].end;
  }

  lemma Slices20To29Tile()
    ensures Tiles(Slices20To29, 338, 418)
  {
    assert forall i :: 0 < i < 5 ==> Slices20To29[i].start == Slices20To29[i - 1].end;
    assert forall i :: 5 <= i < 10 ==> Slices20To29[i].start == Slices20To29[i - 1].end;
    assert forall i :: 0 <= i < 5 ==> 338 <= Slices20To29[i].start < Slices20To29[i].end <= 418;
    assert forall i :: 5 <= i < 10 ==> 338 <= Slices20To29[i].start < Slices20To29[i].end <= 418;
  }

  lemma Slices20To29Sized()
    ensures Sized(Slices20To29, Widths20To29)
  {
    assert forall i :: 0 <= i < 5 ==> Slices20To29[i].start + Widths20To29[i] == Slices20To29[i].end;
    assert forall i :: 5 <= i < 10 ==> Slices20To29[i].start + Widths20To29[i] == Slices20To29[i].end;
  }

  lemma Slices30To39Tile()
    ensures Tiles(Slices30To39, 418, 645)
  {
    assert forall i :: 0 < i < 5 ==> Slices30To39[i].start == Slices30To39[i - 1].end;
    assert forall i :: 5 <= i < 10 ==> Slices30To39[i].start == Slices30To39[i - 1].end;
    assert forall i :: 0 <= i < 5 ==> 418 <= Slices30To39[i].start < Slices30To39[i].end <= 645;
    assert forall i :: 5 <= i < 10 ==> 418 <= Slices30To39[i].start < Slices30To39[i].end <= 645;
  }

  lemma Slices30To39Sized()
    ensures Sized(Slices30To39, Widths30To39)
  {
    assert forall i :: 0 <= i < 5 ==> Slices30To39[i].start + Widths30To39[i] == Slices30To39[i].end;
    assert forall i :: 5 <= i < 10 ==> Slices30To39[i].start + Widths30To39[i] == Slices30To39[i].end;
  }

  lemma Slices40To49Tile()
    ensures Tiles(Slices40To49, 645, 897)
  {
    assert forall i :: 0 < i < 5 ==> Slices40To49[i].start == Slices40To49[i - 1].end;
    assert forall i :: 5 <= i < 10 ==> Slices40To49[i].start == Slices40To49[i - 1].end;
    assert forall i :: 0 <= i < 5 ==> 645 <= Slices40To49[i].start < Slices40To49[i].end <= 897;
    assert forall i :: 5 <= i < 10 ==> 645 <= Slices40To49[i].start < Slices40To49[i].end <= 897;
  }

  lemma Slices40To49Sized()
    ensures Sized(Slices40To49, Widths40To49)
  {
    assert forall i :: 0 <= i < 5 ==> Slices40To49[i].start + Widths40To49[i] == Slices40To49[i].end;
    assert forall i :: 5 <= i < 10 ==> Slices40To49[i].start + Widths40To49[i] == Slices40To49[i].end;
  }

  lemma Slices50To59Tile()
    ensures Tiles(Slices50To59, 897, 1088)
  {
    assert forall i :: 0 < i < 5 ==> Slices50To59[i].start == Slices50To59[i - 1].end;
    assert forall i :: 5 <= i < 10 ==> Slices50To59[i].start == Slices50To59[i - 1].end;
    assert forall i :: 0 <= i < 5 ==> 897 <= Slices50To59[i].start < Slices50To59[i].end <= 1088;
    assert forall i :: 5 <= i < 10 ==> 897 <= Slices50To59[i].start < Slices50To59[i].end <= 1088;
  }

  lemma Slices50To59Sized()
    ensures Sized(Slices50To59, Widths50To59)
  {
    assert forall i :: 0 <= i < 5 ==> Slices50To59[i].start + Widths50To59[i] == Slices50To59[i].end;
    assert forall i :: 5 <= i < 10 ==> Slices50To59[i].start + Widths50To59[i] == Slices50To59[i].end;
  }

  /** The slices run contiguously from position 0 to position 1088, and the
      i-th slice is exactly as wide as the i-th column of the table. */
  lemma {:induction false} SlicesMatchColumns()
    ensures |Slices| == |Columns| == |Headings| == |Widths| == 60
    ensures Tiles(Slices, 0, 1088) && Sized(Slices, Widths)
    ensures forall i :: 0 <= i < |Columns| ==> Columns[i] == Column(Headings[i], Widths[i])
  {
    Slices0To9Tile();
    Slices0To9Sized();
    Slices10To19Tile();
    Slices10To19Sized();
    Slices20To29Tile();
    Slices20To29Sized();
    Slices30To39Tile();
    Slices30To39Sized();
    Slices40To49Tile();
    Slices40To49Sized();
    Slices50To59Tile();
    Slices50To59Sized();
    var s1, w1 := Slices0To9 + Slices10To19, Widths0To9 + Widths10To19;
    var s2, w2 := s1 + Slices20To29, w1 + Widths20To29;
    var s3, w3 := s2 + Slices30To39, w2 + Widths30To39;
    var s4, w4 := s3 + Slices40To49, w3 + Widths40To49;
    TilesAppend(Slices0To9, Slices10To19, 0, 135, 338);
    TilesAppend(s1, Slices20To29, 0, 338, 418);
    TilesAppend(s2, Slices30To39, 0, 418, 645);
    TilesAppend(s3, Slices40To49, 0, 645, 897);
    TilesAppend(s4, Slices50To59, 0, 897, 1088);
    SizedAppend(Slices0To9, Widths0To9, Slices10To19, Widths10To19);
    SizedAppend(s1, w1, Slices20To29, Widths20To29);
    SizedAppend(s2, w2, Slices30To39, Widths30To39);
    SizedAppend(s3, w3, Slices40To49, Widths40To49);
    SizedAppend(s4, w4, Slices50To59, Widths50To59);
  }

  /** The width in pixels the viewer gives a column: eight per character of
      its width or of its heading, whichever is more. */
  function DisplayWidth(c: Column): (px: nat)
    ensures px >= c.width * 8 && px >= |c.name| * 8
    ensures px == c.width * 8 || px == |c.name| * 8
  {
    if c.width * 8 >= |c.name| * 8 then c.width * 8 else |c.name| * 8
  }

  /** The 60 values of a line: each slice of the line, stripped. A slice past
      the end of a short line is cut back or empty, never an error. */
  function Fields(line: string): seq<string> {
    seq(|Slices|, i requires 0 <= i < |Slices| => Strip(PySlice(line, Slices[i].start, Slices[i].end)))
  }

  /** `parse_line`: no values for a blank line, the 60 fields otherwise. */
  function ParseLine(line: string): seq<string> {
    if IsBlank(line) then [] else Fields(line)
  }

  /** A line gives no values exactly when it is blank, and otherwise one value
      per column of the table, none wider than its column and none starting or
      ending with white space. */
  lemma ParseLineMeaning(line: string)
    ensures ParseLine(line) == [] <==> IsBlank(line)
    ensures !IsBlank(line) ==> |ParseLine(line)| == |Columns|
    ensures forall i :: 0 <= i < |ParseLine(line)| ==>
      var v := ParseLine(line)[i];
      |v| <= Columns[i].width && (v != [] ==> !IsPySpace(v[0]) && !IsPySpace(v[|v| - 1]))
  {
    SlicesMatchColumns();
    if !IsBlank(line) {
      forall i | 0 <= i < |Slices|
        ensures var v := Fields(line)[i];
          |v| <= Columns[i].width && (v != [] ==> !IsPySpace(v[0]) && !IsPySpace(v[|v| - 1]))
      {
        FieldWithinSlice(line, i);
        assert Slices[i].start + Widths[i] == Slices[i].end;
      }
    }
  }

  /** The i-th value is no wider than its slice and has no white space at
      either end. */
  lemma FieldWithinSlice(line: string, i: nat)
    requires i < |Slices|
    ensures var v := Fields(line)[i];
      |v| <= Slices[i].end - Slices[i].start && (v != [] ==> !IsPySpace(v[0]) && !IsPySpace(v[|v| - 1]))
  {
    TrimPiece(PySlice(line, Slices[i].start, Slices[i].end), IsPySpace);
  }

  /** Characters at or beyond position 1088 never reach a value. */
  lemma FieldsIgnoreTail(line: string)
    ensures Fields(line) == Fields(line[..Min(1088, |line|)])
  {
    SlicesMatchColumns();
    forall i | 0 <= i < |Slices|
      ensures Fields(line)[i] == Fields(line[..Min(1088, |line|)])[i]
    {
      PySliceIgnoresTail(line, Slices[i].start, Slices[i].end, 1088);
    }
  }

  /** Unlike the import parser, the viewer keeps a line whose first column is
      blank: such a line still gives 60 values, the first of them empty. */
  lemma KeepsLineWithoutCaseNumber(line: string)
    requires !IsBlank(line)
    requires forall k :: 0 <= k < 10 && k < |line| ==> IsPySpace(line[k])
    ensures |ParseLine(line)| == 60 && ParseLine(line)[0] == ""
  {
    SlicesMatchColumns();
    assert Slices[0] == Slice(0, 10);
    var first := PySlice(line, 0, 10);
    assert forall k :: 0 <= k < |first| ==> IsPySpace(first[k]);
    TrimEmpty(first, IsPySpace);
  }

  /** The rows `parse_file` keeps from `lines` for a line parser `parse`
      (`parse_line` is `ParseLine`): the non-empty results, in file order. */
  function ParsedRows(lines: seq<string>, parse: string -> seq<string>): seq<seq<string>> {
    if lines == [] then []
    else
      var values := parse(lines[|lines| - 1]);
      ParsedRows(lines[..|lines| - 1], parse) + (if |values| > 0 then [values] else [])
  }

  /** `parse_file` on the lines of a file: parses each line and keeps the
      rows that have values. */
  method ParseFile(lines: seq<string>) returns (data: seq<seq<string>>)
    ensures data == ParsedRows(lines, ParseLine)
  {
    data := [];
    for i := 0 to |lines|
      invariant data == ParsedRows(lines[..i], ParseLine)
    {
      var values := ParseLine(lines[i]);
      if |values| > 0 {
        data := data + [values];
      }
      assert lines[..i + 1][..i] == lines[..i];
    }
    assert lines[..|lines|] == lines;
  }

  /** Parsing two runs of lines one after the other gives the rows of the
      first run followed by the rows of the second: file order is kept. */
  lemma {:induction false} ParsedRowsAppend(a: seq<string>, b: seq<string>, parse: string -> seq<string>)
    ensures ParsedRows(a + b, parse) == ParsedRows(a, parse) + ParsedRows(b, parse)
    decreases |b|
  {
    if b == [] {
      assert a + b == a;
    } else {
      var b' := b[..|b| - 1];
      ParsedRowsAppend(a, b', parse);
      assert (a + b)[..|a + b| - 1] == a + b';
    }
  }

  /** For a parser that gives nothing for a blank line and a non-empty row
      `f(l)` for any other, the rows are `f` of the non-blank lines, in order. */
  lemma {:induction false} RowsOfNonBlank(lines: seq<string>, parse: string -> seq<string>, f: string -> seq<string>)
    requires forall l :: parse(l) == if IsBlank(l) then [] else f(l)
    requires forall l :: |f(l)| > 0
    ensures |ParsedRows(lines, parse)| == |NonBlank(lines)|
    ensures forall k :: 0 <= k < |NonBlank(lines)| ==> ParsedRows(lines, parse)[k] == f(NonBlank(lines)[k])
  {
    if lines != [] {
      var init, last := lines[..|lines| - 1], lines[|lines| - 1];
      RowsOfNonBlank(init, parse, f);
      var n, rows := NonBlank(init), ParsedRows(init, parse);
      if IsBlank(last) {
        assert NonBlank(lines) == n && ParsedRows(lines, parse) == rows;
      } else {
        assert NonBlank(lines) == n + [last] && ParsedRows(lines, parse) == rows + [f(last)];
      }
    }
  }

  /** One row per non-blank line, each with one value per column of the
      table, so the rows always fit the table's columns. */
  lemma ParsedRowsShape(lines: seq<string>)
    ensures |ParsedRows(lines, ParseLine)| == |NonBlank(lines)|
    ensures forall k :: 0 <= k < |NonBlank(lines)| ==> ParsedRows(lines, ParseLine)[k] == Fields(NonBlank(lines)[k])
    ensures forall k :: 0 <= k < |ParsedRows(lines, ParseLine)| ==> |ParsedRows(lines, ParseLine)[k]| == |Columns|
  {
    SlicesMatchColumns();
    RowsOfNonBlank(lines, ParseLine, Fields);
  }

  /** The non-blank lines of `lines`, in order. */
  function NonBlank(lines: seq<string>): (r: seq<string>)
    ensures |r| <= |lines|
    ensures forall k :: 0 <= k < |r| ==> !IsBlank(r[k])
  {
    if lines == [] then []
    else NonBlank(lines[..|lines| - 1]) + (if IsBlank(lines[|lines| - 1]) then [] else [lines[|lines| - 1]])
  }

  /** A line is kept exactly when it is one of `lines` and is not blank. */
  lemma {:induction false} NonBlankMembers(lines: seq<string>)
    ensures forall l :: l in NonBlank(lines) <==> l in lines && !IsBlank(l)
  {
    if lines != [] {
      var init, last := lines[..|lines| - 1], lines[|lines| - 1];
      NonBlankMembers(init);
      assert lines == init + [last];
    }
  }

  /** Filtering two blocks of lines one after the other is filtering each on
      its own, in the same order. */
  lemma {:induction false} NonBlankAppend(a: seq<string>, b: seq<string>)
    ensures NonBlank(a + b) == NonBlank(a) + NonBlank(b)
    decreases |b|
  {
    if b == [] {
      assert a + b == a;
    } else {
      var b' := b[..|b| - 1];
      NonBlankAppend(a, b');
      assert (a + b)[..|a + b| - 1] == a + b';
      assert (a + b)[|a + b| - 1] == b[|b| - 1];
    }
  }
}
