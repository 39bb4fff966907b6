/** The case table as the assignment routes see it: assigning a case to an
    investigator (`POST /api/assign-enquete`) and listing the cases
    (`GET /api/donnees`). */
module Assignment {
  import opened Common

  /** One stored case. Dates are left out; `enqueteurId` is whatever value the
      last assignment stored, passed on as it came. */
  datatype Row = Row(
    id: int,
    numeroDossier: Option<string>,
    referenceDossier: Option<string>,
    typeDemande: Option<string>,
    nom: Option<string>,
    prenom: Option<string>,
    lieuNaissance: Option<string>,
    codePostal: Option<string>,
    ville: Option<string>,
    numeroDemande: Option<string>,
    numeroDemandeContestee: Option<string>,
    enqueteurId: Scalar)

  /** The request body: a JSON object, whose missing keys read as null, or
      anything else (no JSON, a list, null), on which `data.get` raises. */
  datatype Request = NotAnObject | Object(enqueteId: Option<string>, enqueteurId: Scalar)

  /** The replies: 200 "Assignation réussie", 404 "Enquête non trouvée", or
      500 with the text of the exception. */
  datatype Response = Assigned | NotFound | ServerError

  function Status(r: Response): nat {
    match r
    case Assigned => 200
    case NotFound => 404
    case ServerError => 500
  }

  /** The message a reply carries; a 500 carries the exception's text, which
      the model does not have. */
  function Message(r: Response): Option<string> {
    match r
    case Assigned => Some("Assignation réussie")
    case NotFound => Some("Enquête non trouvée")
    case ServerError => None
  }

  /** `filter_by(numeroDossier=key)`: equality, where a null key selects the
      rows whose case number is null (SQL `IS NULL`). */
  predicate Selects(key: Option<string>, row: Row) {
    row.numeroDossier == key
  }

  /** `.first()`: the position of the first row the key selects, in table order. */
  function FirstIndex(rows: seq<Row>, key: Option<string>): (i: Option<nat>)
    ensures i.Some? ==> i.value < |rows| && Selects(key, rows[i.value])
    ensures i.Some? ==> forall j :: 0 <= j < i.value ==> !Selects(key, rows[j])
    ensures i.None? ==> forall j :: 0 <= j < |rows| ==> !Selects(key, rows[j])
  {
    if rows == [] then None
    else if Selects(key, rows[0]) then Some(0)
    else
      match FirstIndex(rows[1..], key)
      case None => None
      case Some(j) => Some(j + 1)
  }

  /** The table with row `i` assigned to `value`. */
  function AssignAt(rows: seq<Row>, i: nat, value: Scalar): seq<Row>
    requires i < |rows|
  {
    rows[i := rows[i].(enqueteurId := value)]
  }

  /** The committed table and the reply after one assignment request.
      `commitOk` says whether the database accepted the commit; when it does
      not, nothing is stored. */
  function AssignOutcome(rows: seq<Row>, request: Request, commitOk: bool): (seq<Row>, Response) {
    match request
    case NotAnObject => (rows, ServerError)
    case Object(key, value) =>
      match FirstIndex(rows, key)
      case None => (rows, NotFound)
      case Some(i) => if commitOk then (AssignAt(rows, i, value), Assigned) else (rows, ServerError)
  }

  /** A request that reaches a selected row assigns exactly the first such
      row, to the value sent (null or "" included), and leaves every other
      row as it was. */
  lemma AssignsFirstMatchOnly(rows: seq<Row>, key: Option<string>, value: Scalar, i: nat)
    requires i < |rows| && Selects(key, rows[i])
    requires forall j :: 0 <= j < i ==> !Selects(key, rows[j])
    ensures var (after, response) := AssignOutcome(rows, Object(key, value), true);
      response == Assigned && |after| == |rows|
      && after[i] == rows[i].(enqueteurId := value)
      && forall j :: 0 <= j < |rows| && j != i ==> after[j] == rows[j]
  {}

  /** When no row is selected the reply is 404 and the table is untouched. */
  lemma NoMatchChangesNothing(rows: seq<Row>, key: Option<string>, value: Scalar, commitOk: bool)
    requires forall j :: 0 <= j < |rows| ==> !Selects(key, rows[j])
    ensures AssignOutcome(rows, Object(key, value), commitOk) == (rows, NotFound)
  {}

  /** Every reply other than 200 leaves the table as it was. */
  lemma FailureChangesNothing(rows: seq<Row>, request: Request, commitOk: bool)
    ensures AssignOutcome(rows, request, commitOk).1 != Assigned ==> AssignOutcome(rows, request, commitOk).0 == rows
    ensures AssignOutcome(rows, request, commitOk).1 == Assigned ==> request.Object? && commitOk
  {}

  /** Assigning does not change which row a key selects first. */
  lemma {:induction false} FirstIndexIgnoresAssignment(rows: seq<Row>, key: Option<string>, i: nat, value: Scalar)
    requires i < |rows|
    ensures FirstIndex(AssignAt(rows, i, value), key) == FirstIndex(rows, key)
    decreases |rows|
  {
    var after := AssignAt(rows, i, value);
    assert Selects(key, after[0]) == Selects(key, rows[0]);
    if !Selects(key, rows[0]) {
      if i == 0 {
        assert after[1..] == rows[1..];
      } else {
        assert after[1..] == AssignAt(rows[1..], i - 1, value);
        FirstIndexIgnoresAssignment(rows[1..], key, i - 1, value);
      }
    }
  }

  /** Sending the same assignment twice leaves the table as sending it once. */
  lemma AssignIdempotent(rows: seq<Row>, request: Request)
    ensures var once := AssignOutcome(rows, request, true).0;
      AssignOutcome(once, request, true).0 == once
  {
    if request.Object? {
      var f := FirstIndex(rows, request.enqueteId);
      if f.Some? {
        FirstIndexIgnoresAssignment(rows, request.enqueteId, f.value, request.enqueteurId);
        var once := AssignAt(rows, f.value, request.enqueteurId);
        assert AssignAt(once, f.value, request.enqueteurId) == once;
      }
    }
  }

  /** One entry of the `GET /api/donnees` list: the row without its id and
      its dates. */
  datatype Entry = Entry(
    numeroDossier: Option<string>,
    referenceDossier: Option<string>,
    typeDemande: Option<string>,
    nom: Option<string>,
    prenom: Option<string>,
    lieuNaissance: Option<string>,
    codePostal: Option<string>,
    ville: Option<string>,
    numeroDemande: Option<string>,
    numeroDemandeContestee: Option<string>,
    enqueteurId: Scalar)

  function EntryOf(row: Row): Entry {
    Entry(row.numeroDossier, row.referenceDossier, row.typeDemande, row.nom, row.prenom,
      row.lieuNaissance, row.codePostal, row.ville, row.numeroDemande, row.numeroDemandeContestee,
      row.enqueteurId)
  }

  /** `get_donnees`: one entry per row, in query order. */
  function Listing(rows: seq<Row>): (entries: seq<Entry>)
    ensures |entries| == |rows|
    ensures forall k :: 0 <= k < |rows| ==> entries[k] == EntryOf(rows[k])
  {
    if rows == [] then [] else [EntryOf(rows[0])] + Listing(rows[1..])
  }

  /** The listing reflects an assignment: the assigned entry shows the new
      investigator, every other entry and every other field is as before. */
  lemma ListingAfterAssign(rows: seq<Row>, i: nat, value: Scalar)
    requires i < |rows|
    ensures var before, after := Listing(rows), Listing(AssignAt(rows, i, value));
      |after| == |before|
      && after[i] == before[i].(enqueteurId := value)
      && forall k :: 0 <= k < |rows| && k != i ==> after[k] == before[k]
  {}

  /** The stored table. Rows are updated in place. */
  class DonneeTable {
    const rows: array<Row>

    constructor (initial: seq<Row>)
      ensures fresh(rows) && rows[..] == initial
    {
      rows := new Row[|initial|](k requires 0 <= k < |initial| => initial[k]);
    }

    /** `assign_enquete`: finds the first row with the requested case number
        and stores the investigator id on it, or answers 404 and changes
        nothing. */
    method AssignEnquete(request: Request, commitOk: bool) returns (response: Response)
      modifies rows
      ensures (rows[..], response) == AssignOutcome(old(rows[..]), request, commitOk)
    {
      if request.NotAnObject? {
        return ServerError;
      }
      var found := FirstIndex(rows[..], request.enqueteId);
      if found.None? {
        return NotFound;
      }
      if !commitOk {
        return ServerError;
      }
      var i := found.value;
      rows[i] := rows[i].(enqueteurId := request.enqueteurId);
      response := Assigned;
    }
  }
}
