/** The fixed-width import of case records (backend/utils.py): every line of an
    uploaded file is cut at fixed character positions into 46 fields, each
    field is stripped, and lines without a case number are dropped. */
module ImportParser {
  import opened Common
  import opened Text

  /** The 46 keys of an imported record, numbered by the position of their
      column in the import layout. Each constant stands for the dictionary key
      of the same name, spelt with a lower-case initial except
      `CumulMontantsPrecedents`, which the source spells as here. */
  newtype Field = k: int | 0 <= k < 46

  const NumeroDossier: Field := 0
  const ReferenceDossier: Field := 1
  const NumeroInterlocuteur: Field := 2
  const GuidInterlocuteur: Field := 3
  const TypeDemande: Field := 4
  const NumeroDemande: Field := 5
  const NumeroDemandeContestee: Field := 6
  const NumeroDemandeInitiale: Field := 7
  const ForfaitDemande: Field := 8
  const DateRetourEspere: Field := 9
  const Qualite: Field := 10
  const Nom: Field := 11
  const Prenom: Field := 12
  const DateNaissance: Field := 13
  const LieuNaissance: Field := 14
  const CodePostalDeNaissance: Field := 15
  const PaysNaissance: Field := 16
  const NomPatronymique: Field := 17
  const Adresse1: Field := 18
  const Adresse2: Field := 19
  const Adresse3: Field := 20
  const Adresse4: Field := 21
  const Ville: Field := 22
  const CodePostal: Field := 23
  const PaysResidence: Field := 24
  const TelephonePersonnel: Field := 25
  const TelephoneEmployeur: Field := 26
  const TelecopieEmployeur: Field := 27
  const NomEmployeur: Field := 28
  const BanqueDomiciliation: Field := 29
  const LibelleGuichet: Field := 30
  const TitulaireCompte: Field := 31
  const CodeBanque: Field := 32
  const CodeGuichet: Field := 33
  const NumeroCompte: Field := 34
  const RibCompte: Field := 35
  const Datedenvoie: Field := 36
  const ElementDemandes: Field := 37
  const ElementObligatoires: Field := 38
  const ElementContestes: Field := 39
  const CodeMotif: Field := 40
  const MotifDeContestation: Field := 41
  const CumulMontantsPrecedents: Field := 42
  const CodeSociete: Field := 43
  const Urgence: Field := 44
  const Commentaire: Field := 45

  /** A column: the record key it fills and the half-open range [start, end) of
      character positions it occupies. */
  datatype ColumnSpec = ColumnSpec(field: Field, start: nat, end: nat)

  /** The request that opened the case. */
  const RequestColumns: seq<ColumnSpec> := [
    ColumnSpec(NumeroDossier, 0, 10),
    ColumnSpec(ReferenceDossier, 10, 25),
    ColumnSpec(NumeroInterlocuteur, 25, 37),
    ColumnSpec(GuidInterlocuteur, 37, 73),
    ColumnSpec(TypeDemande, 73, 76),
    ColumnSpec(NumeroDemande, 76, 87),
    ColumnSpec(NumeroDemandeContestee, 87, 98),
    ColumnSpec(NumeroDemandeInitiale, 98, 109),
    ColumnSpec(ForfaitDemande, 109, 125),
    ColumnSpec(DateRetourEspere, 125, 135)
  ]

  /** The person the case is about. */
  const PersonColumns: seq<ColumnSpec> := [
    ColumnSpec(Qualite, 135, 145),
    ColumnSpec(Nom, 145, 175),
    ColumnSpec(Prenom, 175, 195),
    ColumnSpec(DateNaissance, 195, 205),
    ColumnSpec(LieuNaissance, 205, 255),
    ColumnSpec(CodePostalDeNaissance, 255, 265),
    ColumnSpec(PaysNaissance, 265, 297),
    ColumnSpec(NomPatronymique, 297, 327)
  ]

  /** The person's last known address, phones and employer. */
  const ContactColumns: seq<ColumnSpec> := [
    ColumnSpec(Adresse1, 327, 359),
    ColumnSpec(Adresse2, 359, 391),
    ColumnSpec(Adresse3, 391, 423),
    ColumnSpec(Adresse4, 423, 455),
    ColumnSpec(Ville, 455, 487),
    ColumnSpec(CodePostal, 487, 497),
    ColumnSpec(PaysResidence, 497, 529),
    ColumnSpec(TelephonePersonnel, 529, 544),
    ColumnSpec(TelephoneEmployeur, 544, 559),
    ColumnSpec(TelecopieEmployeur, 559, 574),
    ColumnSpec(NomEmployeur, 574, 606)
  ]

  /** The person's bank account. */
  const BankColumns: seq<ColumnSpec> := [
    ColumnSpec(BanqueDomiciliation, 606, 638),
    ColumnSpec(LibelleGuichet, 638, 668),
    ColumnSpec(TitulaireCompte, 668, 700),
    ColumnSpec(CodeBanque, 700, 705),
    ColumnSpec(CodeGuichet, 705, 710),
    ColumnSpec(NumeroCompte, 710, 721),
    ColumnSpec(RibCompte, 721, 723)
  ]

  /** Dates, requested elements, contest details and free text. */
  const CaseColumns: seq<ColumnSpec> := [
    ColumnSpec(Datedenvoie, 723, 733),
    ColumnSpec(ElementDemandes, 733, 743),
    ColumnSpec(ElementObligatoires, 743, 753),
    ColumnSpec(ElementContestes, 753, 763),
    ColumnSpec(CodeMotif, 763, 779),
    ColumnSpec(MotifDeContestation, 779, 843),
    ColumnSpec(CumulMontantsPrecedents, 843, 851),
    ColumnSpec(CodeSociete, 851, 853),
    ColumnSpec(Urgence, 853, 854),
    ColumnSpec(Commentaire, 854, 1854)
  ]

  /** The import layout, in line order. */
  const ColumnSpecs: seq<ColumnSpec> :=
    RequestColumns + PersonColumns + ContactColumns + BankColumns + CaseColumns

  /** The columns of `cols` hold the fields of ordinals `base`, `base + 1`, ... */
  predicate NumberedFrom(cols: seq<ColumnSpec>, base: nat) {
    forall i :: 0 <= i < |cols| ==> cols[i].field as int == base + i
  }

  /** `cols` covers the positions [from, to) column after column, with no
      empty column. */
  predicate Tiles(cols: seq<ColumnSpec>, from: nat, to: nat) {
    |cols| > 0 && cols[0].start == from && cols[|cols| - 1].end == to
    && (forall i :: 0 < i < |cols| ==> cols[i].start == cols[i - 1].end)
    && (forall i :: 0 <= i < |cols| ==> from <= cols[i].start < cols[i].end <= to)
  }

  lemma NumberedAppend(a: seq<ColumnSpec>, b: seq<ColumnSpec>, base: nat)
    requires NumberedFrom(a, base) && NumberedFrom(b, base + |a|)
    ensures NumberedFrom(a + b, base)
  {
    forall i | 0 <= i < |a + b| ensures (a + b)[i].field as int == base + i {
      if i >= |a| {
        assert (a + b)[i] == b[i - |a|];
      }
    }
  }

  lemma TilesAppend(a: seq<ColumnSpec>, b: seq<ColumnSpec>, from: nat, mid: nat, to: nat)
    requires Tiles(a, from, mid) && Tiles(b, mid, to)
    ensures Tiles(a + b, from, to)
  {
    var c := a + b;
    forall i | 0 < i < |c| ensures c[i].start == c[i - 1].end {
      if i > |a| {
        assert c[i] == b[i - |a|] && c[i - 1] == b[i - 1 - |a|];
      }
    }
  }

  // Each group of columns lists its fields in order and tiles its part of
  // the line; the tiling proofs go half a group at a time.
  lemma RequestColumnsNumbered()
    ensures NumberedFrom(RequestColumns, 0)
  {}

  lemma RequestColumnsTile()
    ensures Tiles(RequestColumns, 0, 135)
  {
    assert forall i :: 0 < i < 5 ==> RequestColumns[i].start == RequestColumns[i - 1].end;
    assert forall i :: 5 <= i < 10 ==> RequestColumns[i].start == RequestColumns[i - 1].end;
    assert forall i :: 0 <= i < 5 ==> 0 <= RequestColumns[i].start < RequestColumns[i].end <= 135;
    assert forall i :: 5 <= i < 10 ==> 0 <= RequestColumns[i].start < RequestColumns[i].end <= 135;
  }

  lemma PersonColumnsNumbered()
    ensures NumberedFrom(PersonColumns, 10)
  {}

  lemma PersonColumnsTile()
    ensures Tiles(PersonColumns, 135, 327)
  {
    assert forall i :: 0 < i < 4 ==> PersonColumns[i].start == PersonColumns[i - 1].end;
    assert forall i :: 4 <= i < 8 ==> PersonColumns[i].start == PersonColumns[i - 1].end;
    assert forall i :: 0 <= i < 4 ==> 135 <= PersonColumns[i].start < PersonColumns[i].end <= 327;
    assert forall i :: 4 <= i < 8 ==> 135 <= PersonColumns[i].start < PersonColumns[i].end <= 327;
  }

  lemma ContactColumnsNumbered()
    ensures NumberedFrom(ContactColumns, 18)
  {}

  lemma ContactColumnsTile()
    ensures Tiles(ContactColumns, 327, 606)
  {
    assert forall i :: 0 < i < 6 ==> ContactColumns[i].start == ContactColumns[i - 1].end;
    assert forall i :: 6 <= i < 11 ==> ContactColumns[i].start == ContactColumns[i - 1].end;
    assert forall i :: 0 <= i < 6 ==> 327 <= ContactColumns[i].start < ContactColumns[i].end <= 606;
    assert forall i :: 6 <= i < 11 ==> 327 <= ContactColumns[i].start < ContactColumns[i].end <= 606;
  }

  lemma BankColumnsNumbered()
    ensures NumberedFrom(BankColumns, 29)
  {}

  lemma BankColumnsTile()
    ensures Tiles(BankColumns, 606, 723)
  {
    assert forall i :: 0 < i < 4 ==> BankColumns[i].start == BankColumns[i - 1].end;
    assert forall i :: 4 <= i < 7 ==> BankColumns[i].start == BankColumns[i - 1].end;
    assert forall i :: 0 <= i < 4 ==> 606 <= BankColumns[i].start < BankColumns[i].end <= 723;
    assert forall i :: 4 <= i < 7 ==> 606 <= BankColumns[i].start < BankColumns[i].end <= 723;
  }

  lemma CaseColumnsNumbered()
    ensures NumberedFrom(CaseColumns, 36)
  {}

  lemma CaseColumnsTile()
    ensures Tiles(CaseColumns, 723, 1854)
  {
    assert forall i :: 0 < i < 5 ==> CaseColumns[i].start == CaseColumns[i - 1].end;
    assert forall i :: 5 <= i < 10 ==> CaseColumns[i].start == CaseColumns[i - 1].end;
    assert forall i :: 0 <= i < 5 ==> 723 <= CaseColumns[i].start < CaseColumns[i].end <= 1854;
    assert forall i :: 5 <= i < 10 ==> 723 <= CaseColumns[i].start < CaseColumns[i].end <= 1854;
  }

  /** The 46 columns hold the 46 fields in order, and tile positions 0 to
      1854 with no gap, no overlap and no empty column. */
  lemma {:induction false} LayoutLaid()
    ensures |ColumnSpecs| == 46
    ensures NumberedFrom(ColumnSpecs, 0) && Tiles(ColumnSpecs, 0, 1854)
  {
    RequestColumnsNumbered();
    RequestColumnsTile();
    PersonColumnsNumbered();
    PersonColumnsTile();
    ContactColumnsNumbered();
    ContactColumnsTile();
    BankColumnsNumbered();
    BankColumnsTile();
    CaseColumnsNumbered();
    CaseColumnsTile();
    var ab := RequestColumns + PersonColumns;
    var abc := ab + ContactColumns;
    var abcd := abc + BankColumns;
    NumberedAppend(RequestColumns, PersonColumns, 0);
    NumberedAppend(ab, ContactColumns, 0);
    NumberedAppend(abc, BankColumns, 0);
    NumberedAppend(abcd, CaseColumns, 0);
    TilesAppend(RequestColumns, PersonColumns, 0, 135, 327);
    TilesAppend(ab, ContactColumns, 0, 327, 606);
    TilesAppend(abc, BankColumns, 0, 606, 723);
    TilesAppend(abcd, CaseColumns, 0, 723, 1854);
  }

  /** No key is filled by two of the columns. */
  predicate FieldsDistinct(cols: seq<ColumnSpec>) {
    forall i, j :: 0 <= i < |cols| && 0 <= j < |cols| ==> (cols[i].field == cols[j].field ==> i == j)
  }

  /** No key is filled by two columns of the layout. */
  lemma ColumnFieldsDistinct()
    ensures FieldsDistinct(ColumnSpecs)
  {
    LayoutLaid();
  }

  /** The 46 columns tile positions 0 to 1854 with no gap and no overlap. */
  lemma ColumnSpecsTile()
    ensures |ColumnSpecs| == 46 && ColumnSpecs[0].field == NumeroDossier
    ensures ColumnSpecs[0].start == 0 && ColumnSpecs[45].end == 1854
    ensures forall i :: 0 < i < |ColumnSpecs| ==> ColumnSpecs[i].start == ColumnSpecs[i - 1].end
    ensures forall i :: 0 <= i < |ColumnSpecs| ==> ColumnSpecs[i].start < ColumnSpecs[i].end <= 1854
  {
    LayoutLaid();
  }

  /** A parsed line: the dictionary from key to field text. */
  type Record = map<Field, string>

  /** One field as `parse_line` extracts it: `line[start:end].strip()` when the
      line reaches `end`, `line[start:].strip()` when it only passes `start`,
      and "" otherwise. */
  function FieldValue(line: string, spec: ColumnSpec): string {
    if |line| >= spec.end then Strip(PySlice(line, spec.start, spec.end))
    else if |line| > spec.start then Strip(PySlice(line, spec.start, |line|))
    else ""
  }

  /** A field is the stripped slice of its column, cut back to the end of the
      line: never longer than the column, never starting or ending with
      white space, and "" for a line that stops before the column. */
  lemma FieldValueShape(line: string, spec: ColumnSpec)
    requires spec.start < spec.end
    ensures FieldValue(line, spec) == Strip(PySlice(line, spec.start, spec.end))
    ensures |FieldValue(line, spec)| <= spec.end - spec.start
    ensures var v := FieldValue(line, spec); v != [] ==> !IsPySpace(v[0]) && !IsPySpace(v[|v| - 1])
    ensures |line| <= spec.start ==> FieldValue(line, spec) == ""
  {
    if spec.start < |line| < spec.end {
      assert PySlice(line, spec.start, |line|) == PySlice(line, spec.start, spec.end);
    }
    TrimMeaning(PySlice(line, spec.start, spec.end), IsPySpace);
  }

  /** A field never sees the characters at or beyond the end of its column. */
  lemma FieldValueIgnoresTail(line: string, spec: ColumnSpec, n: nat)
    requires spec.start < spec.end <= n
    ensures FieldValue(line, spec) == FieldValue(line[..Min(n, |line|)], spec)
  {
    var p := line[..Min(n, |line|)];
    FieldValueShape(line, spec);
    FieldValueShape(p, spec);
    assert PySlice(line, spec.start, spec.end) == PySlice(p, spec.start, spec.end);
  }

  /** The dictionary built from the first `n` columns of `cols`, the i-th
      column's key taking `values[i]`. */
  function RecordOf(cols: seq<ColumnSpec>, values: seq<string>, n: nat): Record
    requires n <= |cols| == |values|
  {
    if n == 0 then map[] else RecordOf(cols, values, n - 1)[cols[n - 1].field := values[n - 1]]
  }

  /** Over a table that holds the keys in order, the first `n` columns give
      exactly the first `n` keys, each with its own value. */
  lemma {:induction false} RecordOfContents(cols: seq<ColumnSpec>, values: seq<string>, n: nat)
    requires n <= |cols| == |values| && NumberedFrom(cols, 0)
    ensures forall f: Field :: f in RecordOf(cols, values, n) <==> f as int < n
    ensures forall i :: 0 <= i < n ==> RecordOf(cols, values, n)[cols[i].field] == values[i]
  {
    if n > 0 {
      RecordOfContents(cols, values, n - 1);
      forall i | 0 <= i < n - 1 ensures cols[i].field != cols[n - 1].field {
        assert cols[i].field as int == i;
      }
    }
  }

  /** The field of every column of `cols`, in order. */
  function FieldValues(line: string, cols: seq<ColumnSpec>): (values: seq<string>)
    ensures |values| == |cols|
    ensures forall i :: 0 <= i < |cols| ==> values[i] == FieldValue(line, cols[i])
  {
    seq(|cols|, i requires 0 <= i < |cols| => FieldValue(line, cols[i]))
  }

  /** What `parse_line` returns: nothing for a blank line, nothing when the
      case number is empty (`not record.get("numeroDossier")`), and the
      dictionary otherwise. */
  function ParsedRecord(line: string): Option<Record> {
    if IsBlank(line) then None
    else
      var record := RecordOf(ColumnSpecs, FieldValues(line, ColumnSpecs), |ColumnSpecs|);
      if NumeroDossier !in record || record[NumeroDossier] == "" then None else Some(record)
  }

  /** The column loop of `parse_line`: one key per column of the table
      `cols` (`COLUMN_SPECS`), in table order. */
  method ColumnFields(line: string, cols: seq<ColumnSpec>) returns (record: Record)
    ensures record == RecordOf(cols, FieldValues(line, cols), |cols|)
  {
    record := map[];
    for i := 0 to |cols|
      invariant record == RecordOf(cols, FieldValues(line, cols), i)
    {
      var spec := cols[i];
      var value;
      if |line| >= spec.end {
        value := Strip(PySlice(line, spec.start, spec.end));
      } else {
        value := if |line| > spec.start then Strip(PySlice(line, spec.start, |line|)) else "";
      }
      record := record[spec.field := value];
    }
  }

  /** `parse_line`; what it returns is characterised by `ParsedRecordMeaning`. */
  method ParseLine(line: string) returns (r: Option<Record>)
    ensures r == ParsedRecord(line)
  {
    if |Strip(line)| == 0 {
      return None;
    }
    var record := ColumnFields(line, ColumnSpecs);
    if NumeroDossier !in record || record[NumeroDossier] == "" {
      return None;
    }
    r := Some(record);
  }

  /** `parse_line` rejects exactly the blank lines and the lines whose first
      column is blank; any other line gives a record with exactly the 46 keys
      of the layout, each holding its column's field. */
  lemma ParsedRecordMeaning(line: string)
    ensures ParsedRecord(line).None? <==> IsBlank(line) || FieldValue(line, ColumnSpecs[0]) == ""
    ensures ParsedRecord(line).Some? ==> forall f: Field :: f in ParsedRecord(line).value
    ensures ParsedRecord(line).Some? ==> forall i :: 0 <= i < |ColumnSpecs| ==>
      ParsedRecord(line).value[ColumnSpecs[i].field] == FieldValue(line, ColumnSpecs[i])
  {
    LayoutLaid();
    RecordOfContents(ColumnSpecs, FieldValues(line, ColumnSpecs), |ColumnSpecs|);
    ColumnSpecsTile();
  }

  /** Characters at or beyond position 1854 never reach the record. */
  lemma ParsedRecordIgnoresTail(line: string)
    ensures ParsedRecord(line) == ParsedRecord(line[..Min(1854, |line|)])
  {
    var p := line[..Min(1854, |line|)];
    ColumnSpecsTile();
    forall i | 0 <= i < |ColumnSpecs|
      ensures FieldValue(line, ColumnSpecs[i]) == FieldValue(p, ColumnSpecs[i])
    {
      FieldValueIgnoresTail(line, ColumnSpecs[i], 1854);
    }
    assert FieldValues(line, ColumnSpecs) == FieldValues(p, ColumnSpecs);
    ParsedRecordMeaning(line);
    ParsedRecordMeaning(p);
    TrimMeaning(line, IsPySpace);
    TrimMeaning(p, IsPySpace);
    if IsBlank(line) != IsBlank(p) {
      // `p` is all white space, so its first column is blank.
      assert forall k :: 0 <= k < |p| ==> IsPySpace(p[k]);
      var s := PySlice(p, 0, 10);
      assert forall k :: 0 <= k < |s| ==> IsPySpace(s[k]);
      TrimMeaning(s, IsPySpace);
      FieldValueShape(p, ColumnSpecs[0]);
    }
  }

  /** `clean_and_validate_record`: a missing or empty record becomes None, any
      other comes back unchanged. */
  function CleanAndValidate(record: Option<Record>): (r: Option<Record>)
    ensures r.Some? <==> record.Some? && record.value != map[]
    ensures r.Some? ==> r == record
  {
    if record.None? || record.value == map[] then None else record
  }

  /** Cleaning never changes what `parse_line` returns. */
  lemma CleanAndValidateKeepsParsed(line: string)
    ensures CleanAndValidate(ParsedRecord(line)) == ParsedRecord(line)
  {
    ParsedRecordMeaning(line);
    ColumnSpecsTile();
    if ParsedRecord(line).Some? {
      assert NumeroDossier in ParsedRecord(line).value;
    }
  }

  /** `[line.strip() for line in lines if line.strip()]`. */
  function PrepareLines(lines: seq<string>): (r: seq<string>)
    ensures |r| <= |lines|
    ensures forall k :: 0 <= k < |r| ==> r[k] != [] && !IsPySpace(r[k][0]) && !IsPySpace(r[k][|r[k]| - 1])
  {
    if lines == [] then []
    else
      var rest := PrepareLines(lines[..|lines| - 1]);
      var s := Strip(lines[|lines| - 1]);
      TrimMeaning(lines[|lines| - 1], IsPySpace);
      if s != [] then rest + [s] else rest
  }

  /** One line is kept, stripped, unless it is blank. */
  lemma PrepareLinesOne(l: string)
    ensures PrepareLines([l]) == if IsBlank(l) then [] else [Strip(l)]
  {
    assert [l][..0] == [];
  }

  /** Preparing two blocks of lines one after the other is preparing each
      block on its own: the filter looks at one line at a time and keeps
      their order. */
  lemma {:induction false} PrepareLinesAppend(a: seq<string>, b: seq<string>)
    ensures PrepareLines(a + b) == PrepareLines(a) + PrepareLines(b)
    decreases |b|
  {
    if b == [] {
      assert a + b == a;
    } else {
      var b' := b[..|b| - 1];
      PrepareLinesAppend(a, b');
      assert (a + b)[..|a + b| - 1] == a + b';
      assert (a + b)[|a + b| - 1] == b[|b| - 1];
    }
  }

  /** A stripped, non-empty line always gives a record: it is not blank, and
      its first column starts with a character that is not white space, so
      its case number is never empty. */
  lemma PreparedLineParses(l: string)
    requires l != [] && !IsPySpace(l[0])
    ensures ParsedRecord(l).Some?
  {
    TrimEmpty(l, IsPySpace);
    var s := PySlice(l, 0, 10);
    assert s[0] == l[0];
    TrimEmpty(s, IsPySpace);
    ColumnSpecsTile();
    FieldValueShape(l, ColumnSpecs[0]);
    ParsedRecordMeaning(l);
  }

  /** Hence on the import path neither the blank test nor the case-number
      test of `parse_line` ever rejects a line: every prepared line gives a
      record, and a line number in the import counts non-blank lines only. */
  lemma PreparedLinesParse(lines: seq<string>)
    ensures forall k :: 0 <= k < |PrepareLines(lines)| ==> ParsedRecord(PrepareLines(lines)[k]).Some?
  {
    forall k | 0 <= k < |PrepareLines(lines)|
      ensures ParsedRecord(PrepareLines(lines)[k]).Some?
    {
      PreparedLineParses(PrepareLines(lines)[k]);
    }
  }

  /** A record as it is handed to the database: the parsed fields and the id
      of the file it came from (`record['fichier_id'] = fichier_id`). */
  datatype ImportedRecord = ImportedRecord(fields: Record, fichierId: int)

  /** What the import loop collects: the stored records in order, and the
      1-based numbers of the lines whose storing failed. */
  datatype ImportResult = ImportResult(processed: seq<ImportedRecord>, errors: seq<nat>)

  /** The import loop over prepared `lines`, for a line parser `parse`
      (`parse_line` is `ParsedRecord`). `insertOk` tells whether the database
      accepted a record, the only step of the loop that can raise. */
  function ImportLines(lines: seq<string>, fichierId: int, parse: string -> Option<Record>,
                       insertOk: ImportedRecord -> bool): ImportResult
  {
    if lines == [] then ImportResult([], [])
    else
      var before := ImportLines(lines[..|lines| - 1], fichierId, parse, insertOk);
      var cleaned := CleanAndValidate(parse(lines[|lines| - 1]));
      if cleaned.None? then before
      else
        var imported := ImportedRecord(cleaned.value, fichierId);
        if insertOk(imported) then ImportResult(before.processed + [imported], before.errors)
        else ImportResult(before.processed, before.errors + [|lines|])
  }

  /** What `process_file_content` hands back: the stored records, or None when
      it raises. A refused record leaves the database session failed, so every
      later step, the final commit included, fails too, and the final commit's
      failure is rolled back and raised again: the records come back only when
      no line was refused. */
  function ImportOutcome(lines: seq<string>, fichierId: int, parse: string -> Option<Record>,
                         insertOk: ImportedRecord -> bool): Option<seq<ImportedRecord>>
  {
    var result := ImportLines(lines, fichierId, parse, insertOk);
    if result.errors == [] then Some(result.processed) else None
  }

  /** `process_file_content` on decoded text: prepares the lines, parses each,
      tries to store every record it keeps, numbers the lines whose record was
      refused, and at the end either returns the stored records or raises. */
  method ProcessFileContent(content: string, fichierId: int, insertOk: ImportedRecord -> bool)
    returns (outcome: Option<seq<ImportedRecord>>)
    ensures outcome == ImportOutcome(PrepareLines(SplitLines(content)), fichierId, ParsedRecord, insertOk)
  {
    var lines := PrepareLines(SplitLines(content));
    var processed: seq<ImportedRecord>, errors: seq<nat> := [], [];
    for i := 0 to |lines|
      invariant ImportResult(processed, errors) == ImportLines(lines[..i], fichierId, ParsedRecord, insertOk)
    {
      var lineNumber := i + 1;
      var record := ParseLine(lines[i]);
      if record.Some? && record.value != map[] {
        record := CleanAndValidate(record);
        if record.Some? {
          var imported := ImportedRecord(record.value, fichierId);
          if insertOk(imported) {
            processed := processed + [imported];
          } else {
            errors := errors + [lineNumber];
          }
        }
      }
      assert lines[..i + 1][..i] == lines[..i];
    }
    assert lines[..|lines|] == lines;
    if errors == [] {
      outcome := Some(processed);
    } else {
      outcome := None;
    }
  }

  /** What the loop keeps of one line: its cleaned record. */
  function Kept(line: string, parse: string -> Option<Record>): Option<Record> {
    CleanAndValidate(parse(line))
  }

  /** The database refused the record kept from `line`. */
  predicate Refused(line: string, fichierId: int, parse: string -> Option<Record>,
                    insertOk: ImportedRecord -> bool) {
    Kept(line, parse).Some? && !insertOk(ImportedRecord(Kept(line, parse).value, fichierId))
  }

  /** Every stored record carries the file id and is the record kept from one
      of the lines; a line gives at most one record or one error. */
  lemma {:induction false} ImportLinesProcessed(lines: seq<string>, fichierId: int,
      parse: string -> Option<Record>, insertOk: ImportedRecord -> bool)
    ensures |ImportLines(lines, fichierId, parse, insertOk).processed|
      + |ImportLines(lines, fichierId, parse, insertOk).errors| <= |lines|
    ensures forall k :: 0 <= k < |ImportLines(lines, fichierId, parse, insertOk).processed| ==>
      var r := ImportLines(lines, fichierId, parse, insertOk).processed[k];
      r.fichierId == fichierId && exists j :: 0 <= j < |lines| && Kept(lines[j], parse) == Some(r.fields)
  {
    if lines != [] {
      var init := lines[..|lines| - 1];
      ImportLinesProcessed(init, fichierId, parse, insertOk);
      var before := ImportLines(init, fichierId, parse, insertOk).processed;
      forall k | 0 <= k < |before|
        ensures before[k].fichierId == fichierId
        ensures exists j :: 0 <= j < |lines| && Kept(lines[j], parse) == Some(before[k].fields)
      {
        var j :| 0 <= j < |init| && Kept(init[j], parse) == Some(before[k].fields);
        assert lines[j] == init[j];
      }
    }
  }

  /** The errors are the numbers of the refused lines, in increasing order. */
  lemma {:induction false} ImportLinesErrors(lines: seq<string>, fichierId: int,
      parse: string -> Option<Record>, insertOk: ImportedRecord -> bool)
    ensures forall k :: 0 <= k < |ImportLines(lines, fichierId, parse, insertOk).errors| ==>
      var n := ImportLines(lines, fichierId, parse, insertOk).errors[k];
      1 <= n <= |lines| && Refused(lines[n - 1], fichierId, parse, insertOk)
    ensures forall k, m :: 0 <= k < m < |ImportLines(lines, fichierId, parse, insertOk).errors| ==>
      ImportLines(lines, fichierId, parse, insertOk).errors[k]
        < ImportLines(lines, fichierId, parse, insertOk).errors[m]
  {
    if lines != [] {
      var init := lines[..|lines| - 1];
      ImportLinesErrors(init, fichierId, parse, insertOk);
      var before := ImportLines(init, fichierId, parse, insertOk).errors;
      forall k | 0 <= k < |before|
        ensures 1 <= before[k] <= |init| && Refused(lines[before[k] - 1], fichierId, parse, insertOk)
      {
        assert 1 <= before[k] <= |init| && Refused(init[before[k] - 1], fichierId, parse, insertOk);
        assert lines[before[k] - 1] == init[before[k] - 1];
      }
    }
  }

  /** `errors` with `offset` added to every line number. */
  function Shift(errors: seq<nat>, offset: nat): (r: seq<nat>)
    ensures |r| == |errors| && forall k :: 0 <= k < |r| ==> r[k] == errors[k] + offset
  {
    seq(|errors|, k requires 0 <= k < |errors| => errors[k] + offset)
  }

  lemma ShiftAppend(errors: seq<nat>, n: nat, offset: nat)
    ensures Shift(errors + [n], offset) == Shift(errors, offset) + [n + offset]
  {}

  /** Importing two blocks of lines one after the other is importing each
      block on its own: a refused line never stops the lines after it, and
      the order of the input is kept. */
  lemma {:induction false} ImportLinesAppend(a: seq<string>, b: seq<string>, fichierId: int,
      parse: string -> Option<Record>, insertOk: ImportedRecord -> bool)
    ensures ImportLines(a + b, fichierId, parse, insertOk).processed
      == ImportLines(a, fichierId, parse, insertOk).processed
       + ImportLines(b, fichierId, parse, insertOk).processed
    ensures ImportLines(a + b, fichierId, parse, insertOk).errors
      == ImportLines(a, fichierId, parse, insertOk).errors
       + Shift(ImportLines(b, fichierId, parse, insertOk).errors, |a|)
    decreases |b|
  {
    if b == [] {
      assert a + b == a;
    } else {
      var b' := b[..|b| - 1];
      ImportLinesAppend(a, b', fichierId, parse, insertOk);
      assert (a + b)[..|a + b| - 1] == a + b';
      assert (a + b)[|a + b| - 1] == b[|b| - 1];
      var ea, eb := ImportLines(a, fichierId, parse, insertOk).errors, ImportLines(b', fichierId, parse, insertOk).errors;
      ShiftAppend(eb, |b|, |a|);
      assert ea + Shift(eb, |a|) + [|a + b|] == ea + (Shift(eb, |a|) + [|a + b|]);
    }
  }

  /** The records kept from the lines, in line order, each tagged with the
      file id. */
  function KeptRecords(lines: seq<string>, fichierId: int, parse: string -> Option<Record>): seq<ImportedRecord> {
    if lines == [] then []
    else
      var rest := KeptRecords(lines[1..], fichierId, parse);
      match Kept(lines[0], parse)
      case Some(fields) => [ImportedRecord(fields, fichierId)] + rest
      case None => rest
  }

  /** When the database refuses none of the lines' records, no error is
      reported and the stored records are those kept from the lines, in line
      order. */
  lemma {:induction false} ImportLinesAllAccepted(lines: seq<string>, fichierId: int,
      parse: string -> Option<Record>, insertOk: ImportedRecord -> bool)
    requires forall j :: 0 <= j < |lines| ==> !Refused(lines[j], fichierId, parse, insertOk)
    ensures ImportLines(lines, fichierId, parse, insertOk).errors == []
    ensures ImportLines(lines, fichierId, parse, insertOk).processed == KeptRecords(lines, fichierId, parse)
  {
    if lines != [] {
      var first, rest := [lines[0]], lines[1..];
      assert lines == first + rest;
      ImportLinesAllAccepted(rest, fichierId, parse, insertOk);
      ImportLinesAppend(first, rest, fichierId, parse, insertOk);
      assert first[..0] == [];
    }
  }

  /** Every refused line is reported: its number is among the errors. */
  lemma {:induction false} ImportLinesErrorsComplete(lines: seq<string>, fichierId: int,
      parse: string -> Option<Record>, insertOk: ImportedRecord -> bool)
    ensures forall j :: 0 <= j < |lines| && Refused(lines[j], fichierId, parse, insertOk) ==>
      j + 1 in ImportLines(lines, fichierId, parse, insertOk).errors
  {
    if lines != [] {
      var init := lines[..|lines| - 1];
      ImportLinesErrorsComplete(init, fichierId, parse, insertOk);
      var before := ImportLines(init, fichierId, parse, insertOk).errors;
      var after := ImportLines(lines, fichierId, parse, insertOk).errors;
      assert forall n :: n in before ==> n in after;
      forall j | 0 <= j < |init| && Refused(lines[j], fichierId, parse, insertOk)
        ensures j + 1 in after
      {
        assert lines[j] == init[j];
      }
    }
  }

  /** The import returns its records exactly when no line's record was
      refused, and then they are the records kept from the lines, in line
      order; otherwise it raises. */
  lemma ImportOutcomeMeaning(lines: seq<string>, fichierId: int,
      parse: string -> Option<Record>, insertOk: ImportedRecord -> bool)
    ensures ImportOutcome(lines, fichierId, parse, insertOk).Some?
      <==> forall j :: 0 <= j < |lines| ==> !Refused(lines[j], fichierId, parse, insertOk)
    ensures ImportOutcome(lines, fichierId, parse, insertOk).Some? ==>
      ImportOutcome(lines, fichierId, parse, insertOk).value == KeptRecords(lines, fichierId, parse)
  {
    var errors := ImportLines(lines, fichierId, parse, insertOk).errors;
    ImportLinesErrors(lines, fichierId, parse, insertOk);
    ImportLinesErrorsComplete(lines, fichierId, parse, insertOk);
    if forall j :: 0 <= j < |lines| ==> !Refused(lines[j], fichierId, parse, insertOk) {
      ImportLinesAllAccepted(lines, fichierId, parse, insertOk);
    } else {
      var j :| 0 <= j < |lines| && Refused(lines[j], fichierId, parse, insertOk);
      assert j + 1 in errors;
    }
  }

  /** For the import itself, what the loop keeps of a line is what `parse_line`
      returns: exactly the lines that `ParsedRecordMeaning` accepts. */
  lemma KeptIsParsed(line: string)
    ensures Kept(line, ParsedRecord) == ParsedRecord(line)
  {
    CleanAndValidateKeepsParsed(line);
  }
}
