/** The list of case records in the web front end
    (frontend/src/components/DataViewer.jsx): the records fetched from the
    back end, the search box that filters them, the investigator names shown
    beside them, deletion, and the update dialog. */
module RecordList {
  import opened Common
  import opened Text

  /** A case record as the list receives it. The four searchable fields may be
      missing or null (`None`). */
  datatype Donnee = Donnee(
    id: int,
    numeroDossier: Option<string>,
    nom: Option<string>,
    prenom: Option<string>,
    ville: Option<string>,
    enqueteurId: Scalar)

  /** An investigator as the list receives it. */
  datatype Enqueteur = Enqueteur(id: Scalar, nom: string, prenom: string)

  /** The outcome of a request: it threw (with the message the list shows),
      or it answered with a `success` flag and, when the payload holds one,
      an array. */
  datatype Reply<T> = Thrown(message: string) | Answered(success: bool, data: Option<seq<T>>)

  // ---------------------------------------------------------------- search

  /** `field?.toLowerCase().includes(term)`: a missing field never matches. */
  predicate FieldMatches(field: Option<string>, termLower: string) {
    field.Some? && Contains(Lower(field.value), termLower)
  }

  /** The record matches the lower-cased term in one of its four searchable
      fields. */
  predicate Matches(d: Donnee, termLower: string) {
    FieldMatches(d.numeroDossier, termLower) || FieldMatches(d.nom, termLower)
    || FieldMatches(d.prenom, termLower) || FieldMatches(d.ville, termLower)
  }

  /** `donnees.filter(...)` with the search predicate. */
  function Filter(donnees: seq<Donnee>, termLower: string): seq<Donnee> {
    if donnees == [] then []
    else (if Matches(donnees[0], termLower) then [donnees[0]] else []) + Filter(donnees[1..], termLower)
  }

  /** What `handleSearch` shows for the text `value` typed in the search box:
      everything when the text is blank once trimmed, and otherwise the records
      matching the lower-cased (untrimmed) text. */
  function SearchResult(donnees: seq<Donnee>, value: string): seq<Donnee> {
    if JsTrim(value) == [] then donnees else Filter(donnees, Lower(value))
  }

  /** The filter keeps exactly the matching records. */
  lemma {:induction false} FilterMembership(donnees: seq<Donnee>, termLower: string, d: Donnee)
    ensures d in Filter(donnees, termLower) <==> d in donnees && Matches(d, termLower)
  {
    if donnees != [] {
      FilterMembership(donnees[1..], termLower, d);
      assert donnees == [donnees[0]] + donnees[1..];
    }
  }

  /** Filtering two runs of records is filtering each: the filter keeps the
      order of the list. */
  lemma {:induction false} FilterAppend(a: seq<Donnee>, b: seq<Donnee>, termLower: string)
    ensures Filter(a + b, termLower) == Filter(a, termLower) + Filter(b, termLower)
  {
    if a != [] {
      FilterAppend(a[1..], b, termLower);
      var head := if Matches(a[0], termLower) then [a[0]] else [];
      assert (a + b)[0] == a[0];
      assert (a + b)[1..] == a[1..] + b;
      assert Filter(a + b, termLower) == head + Filter(a[1..] + b, termLower);
      assert Filter(a, termLower) == head + Filter(a[1..], termLower);
    } else {
      assert a + b == b;
    }
  }

  /** The filtered list is never longer than the list. */
  lemma {:induction false} FilterLength(donnees: seq<Donnee>, termLower: string)
    ensures |Filter(donnees, termLower)| <= |donnees|
  {
    if donnees != [] {
      FilterLength(donnees[1..], termLower);
    }
  }

  /** A term made only of white space (or empty) shows the whole list. */
  lemma SearchBlankShowsAll(donnees: seq<Donnee>, value: string)
    requires forall k :: 0 <= k < |value| ==> IsJsSpace(value[k])
    ensures SearchResult(donnees, value) == donnees
  {
    TrimEmpty(value, IsJsSpace);
  }

  /** Any other term shows exactly the records that contain it, ignoring case,
      in one of their four fields. */
  lemma SearchMembership(donnees: seq<Donnee>, value: string, d: Donnee)
    requires exists k :: 0 <= k < |value| && !IsJsSpace(value[k])
    ensures d in SearchResult(donnees, value) <==> d in donnees && Matches(d, Lower(value))
  {
    TrimEmpty(value, IsJsSpace);
    FilterMembership(donnees, Lower(value), d);
  }

  /** The search ignores the case of the term. */
  lemma SearchIgnoresCase(donnees: seq<Donnee>, value: string)
    ensures SearchResult(donnees, Lower(value)) == SearchResult(donnees, value)
  {
    var low := Lower(value);
    TrimEmpty(value, IsJsSpace);
    TrimEmpty(low, IsJsSpace);
    assert forall k :: 0 <= k < |value| ==> (IsJsSpace(low[k]) <==> IsJsSpace(value[k]));
    assert Lower(low) == low;
  }

  /** The term is trimmed only to decide whether it is blank: a term that
      starts with a space shows only records that have a space in one of the
      four fields. */
  lemma SearchKeepsSpaces(donnees: seq<Donnee>, value: string, d: Donnee)
    requires value != [] && value[0] == ' '
    requires exists k :: 0 <= k < |value| && !IsJsSpace(value[k])
    requires d in SearchResult(donnees, value)
    ensures Matches(d, " ")
  {
    SearchMembership(donnees, value, d);
    var low := Lower(value);
    assert low[0] == ' ';
    assert [' '] <= low;
    forall field: Option<string> | FieldMatches(field, low) ensures FieldMatches(field, " ") {
      var i :| 0 <= i <= |Lower(field.value)| && low <= Lower(field.value)[i..];
      assert " " <= Lower(field.value)[i..];
    }
  }

  // ------------------------------------------------------ investigator name

  /** `enqueteurs.find(e => e.id === id)`: the first investigator with that id. */
  function Find(enqueteurs: seq<Enqueteur>, id: Scalar): Option<Enqueteur> {
    if enqueteurs == [] then None
    else if enqueteurs[0].id == id then Some(enqueteurs[0])
    else Find(enqueteurs[1..], id)
  }

  /** `getEnqueteurName`: the text shown for the investigator of a record. */
  function EnqueteurName(enqueteurs: seq<Enqueteur>, id: Scalar): string {
    if Falsy(id) then "Non assigné"
    else
      match Find(enqueteurs, id)
      case Some(e) => e.nom + " " + e.prenom
      case None => "Non trouvé"
  }

  /** `k` is the position of the first investigator with the id. */
  predicate FirstWithId(enqueteurs: seq<Enqueteur>, id: Scalar, k: int) {
    0 <= k < |enqueteurs| && enqueteurs[k].id == id && forall j :: 0 <= j < k ==> enqueteurs[j].id != id
  }

  /** `Find` returns the first investigator with the id, and nothing when no
      investigator has it. */
  lemma {:induction false} FindMeaning(enqueteurs: seq<Enqueteur>, id: Scalar)
    ensures Find(enqueteurs, id).None? <==> forall k :: 0 <= k < |enqueteurs| ==> enqueteurs[k].id != id
    ensures Find(enqueteurs, id).Some? ==>
      exists k :: FirstWithId(enqueteurs, id, k) && Find(enqueteurs, id) == Some(enqueteurs[k])
  {
    if enqueteurs != [] && enqueteurs[0].id != id {
      var rest := enqueteurs[1..];
      FindMeaning(rest, id);
      if Find(rest, id).Some? {
        var k :| FirstWithId(rest, id, k) && Find(rest, id) == Some(rest[k]);
        assert enqueteurs[k + 1] == rest[k];
        assert FirstWithId(enqueteurs, id, k + 1);
      }
    } else if enqueteurs != [] {
      assert FirstWithId(enqueteurs, id, 0);
    }
  }

  /** A falsy id (missing, null, 0, "" or false) reads "Non assigné"; an id no
      investigator has reads "Non trouvé"; otherwise the name is that of the
      first investigator with the id, as "nom prenom". */
  lemma EnqueteurNameMeaning(enqueteurs: seq<Enqueteur>, id: Scalar)
    ensures Falsy(id) ==> EnqueteurName(enqueteurs, id) == "Non assigné"
    ensures !Falsy(id) && (forall k :: 0 <= k < |enqueteurs| ==> enqueteurs[k].id != id)
      ==> EnqueteurName(enqueteurs, id) == "Non trouvé"
    ensures forall k :: !Falsy(id) && FirstWithId(enqueteurs, id, k) ==>
      EnqueteurName(enqueteurs, id) == enqueteurs[k].nom + " " + enqueteurs[k].prenom
  {
    FindMeaning(enqueteurs, id);
    forall k | !Falsy(id) && FirstWithId(enqueteurs, id, k)
      ensures Find(enqueteurs, id) == Some(enqueteurs[k])
    {
      var k' :| FirstWithId(enqueteurs, id, k') && Find(enqueteurs, id) == Some(enqueteurs[k']);
      assert !(k < k') && !(k' < k);
    }
  }

  // --------------------------------------------------------------- deletion

  /** `donnees.filter((donnee) => donnee.id !== id)`. */
  function WithoutId(donnees: seq<Donnee>, id: int): seq<Donnee> {
    if donnees == [] then []
    else (if donnees[0].id != id then [donnees[0]] else []) + WithoutId(donnees[1..], id)
  }

  /** Deleting removes every record with the id and nothing else, keeping the
      order of the rest. */
  lemma {:induction false} WithoutIdMeaning(donnees: seq<Donnee>, id: int, d: Donnee)
    ensures d in WithoutId(donnees, id) <==> d in donnees && d.id != id
    ensures |WithoutId(donnees, id)| <= |donnees|
  {
    if donnees != [] {
      WithoutIdMeaning(donnees[1..], id, d);
      assert donnees == [donnees[0]] + donnees[1..];
    }
  }

  /** A list without that id is left as it is. */
  lemma {:induction false} WithoutAbsentId(donnees: seq<Donnee>, id: int)
    requires forall k :: 0 <= k < |donnees| ==> donnees[k].id != id
    ensures WithoutId(donnees, id) == donnees
  {
    if donnees != [] {
      WithoutAbsentId(donnees[1..], id);
      assert donnees == [donnees[0]] + donnees[1..];
    }
  }

  const LoadError: string := "Erreur lors du chargement des données: "
  const FormatError: string := "Format de données invalide"
  const Deleted: string := "Enregistrement supprimé avec succès."
  const NotDeleted: string := "Erreur lors de la suppression de l'enregistrement."
  const DeleteFailed: string := "Une erreur est survenue."

  // ------------------------------------------------------------------ state

  /** The state of the list component. */
  class DataViewerState {
    var donnees: seq<Donnee>
    var enqueteurs: seq<Enqueteur>
    var filteredDonnees: seq<Donnee>
    var loading: bool
    var error: Option<string>
    var searchTerm: string
    var selectedData: Option<Donnee>
    var isUpdateModalOpen: bool

    /** The state before the first fetch. */
    constructor ()
      ensures donnees == [] && enqueteurs == [] && filteredDonnees == []
      ensures loading && error == None && searchTerm == ""
      ensures selectedData == None && !isUpdateModalOpen
    {
      donnees := [];
      enqueteurs := [];
      filteredDonnees := [];
      loading := true;
      error := None;
      searchTerm := "";
      selectedData := None;
      isUpdateModalOpen := false;
    }

    /** `handleSearch`: remembers the text and shows what it selects. */
    method HandleSearch(value: string)
      modifies this
      ensures searchTerm == value
      ensures filteredDonnees == SearchResult(donnees, value)
      ensures donnees == old(donnees) && enqueteurs == old(enqueteurs)
      ensures loading == old(loading) && error == old(error)
      ensures selectedData == old(selectedData) && isUpdateModalOpen == old(isUpdateModalOpen)
    {
      searchTerm := value;
      if JsTrim(value) == [] {
        filteredDonnees := donnees;
        return;
      }
      var searchTermLower := Lower(value);
      filteredDonnees := Filter(donnees, searchTermLower);
    }

    /** The lists, investigators, error and loading flag after `fetchData`
        with these replies, from the state before it. */
    twostate predicate Fetched(dataReply: Reply<Donnee>, enqueteursReply: Reply<Enqueteur>)
      reads this
    {
      !loading
      && (dataReply.Answered? && dataReply.success && dataReply.data.Some? ==>
        donnees == filteredDonnees == dataReply.data.value)
      && (!(dataReply.Answered? && dataReply.success && dataReply.data.Some?) ==>
        donnees == old(donnees) && filteredDonnees == old(filteredDonnees) && enqueteurs == old(enqueteurs)
        && error == Some(LoadError + (if dataReply.Thrown? then dataReply.message else FormatError)))
      && (dataReply.Answered? && dataReply.success && dataReply.data.Some? ==>
        match enqueteursReply
        case Thrown(message) => error == Some(LoadError + message) && enqueteurs == old(enqueteurs)
        case Answered(success, data) =>
          error == None && enqueteurs == (if success && data.Some? then data.value else old(enqueteurs)))
    }

    /** `fetchData`, with the two replies as parameters. A good first reply
        replaces the list and shows all of it, whatever the search term; the
        second request is made only then. A bad first reply, or a second reply
        that throws, ends in the error state; a second reply without success
        or without an array leaves the investigators as they were. */
    method FetchData(dataReply: Reply<Donnee>, enqueteursReply: Reply<Enqueteur>)
      modifies this
      ensures !loading
      ensures Fetched(dataReply, enqueteursReply)
      ensures searchTerm == old(searchTerm) && selectedData == old(selectedData)
      ensures isUpdateModalOpen == old(isUpdateModalOpen)
    {
      loading := true;
      error := None;
      if !(dataReply.Answered? && dataReply.success && dataReply.data.Some?) {
        var message := if dataReply.Thrown? then dataReply.message else FormatError;
        error := Some(LoadError + message);
        loading := false;
        return;
      }
      donnees := dataReply.data.value;
      filteredDonnees := dataReply.data.value;
      if enqueteursReply.Thrown? {
        error := Some(LoadError + enqueteursReply.message);
        loading := false;
        return;
      }
      if enqueteursReply.success && enqueteursReply.data.Some? {
        enqueteurs := enqueteursReply.data.value;
      }
      loading := false;
    }

    /** `handleDelete`, with the user's answer to the confirmation and the
        reply of the delete request as parameters; returns the alert shown, if
        any. Only a successful reply changes the list, and it then shows all
        remaining records, whatever the search term. */
    method HandleDelete(id: int, confirmed: bool, reply: Reply<Donnee>) returns (alert: Option<string>)
      modifies this
      ensures !confirmed ==> alert == None
      ensures confirmed && reply.Answered? && reply.success ==>
        donnees == filteredDonnees == WithoutId(old(donnees), id) && alert == Some(Deleted)
      ensures !(confirmed && reply.Answered? && reply.success) ==>
        donnees == old(donnees) && filteredDonnees == old(filteredDonnees)
      ensures confirmed && reply.Answered? && !reply.success ==> alert == Some(NotDeleted)
      ensures confirmed && reply.Thrown? ==> alert == Some(DeleteFailed)
      ensures enqueteurs == old(enqueteurs) && loading == old(loading) && error == old(error)
      ensures searchTerm == old(searchTerm) && selectedData == old(selectedData)
      ensures isUpdateModalOpen == old(isUpdateModalOpen)
    {
      alert := None;
      if confirmed {
        if reply.Thrown? {
          alert := Some(DeleteFailed);
        } else if reply.success {
          var updatedDonnees := WithoutId(donnees, id);
          donnees := updatedDonnees;
          filteredDonnees := updatedDonnees;
          alert := Some(Deleted);
        } else {
          alert := Some(NotDeleted);
        }
      }
    }

    /** `handleUpdate`: opens the dialog on the record. */
    method HandleUpdate(donnee: Donnee)
      modifies this
      ensures selectedData == Some(donnee) && isUpdateModalOpen
      ensures donnees == old(donnees) && filteredDonnees == old(filteredDonnees)
      ensures enqueteurs == old(enqueteurs) && loading == old(loading) && error == old(error)
      ensures searchTerm == old(searchTerm)
    {
      selectedData := Some(donnee);
      isUpdateModalOpen := true;
    }

    /** `handleModalClose`: always closes the dialog and forgets the record;
        fetches again (with the given replies) only when asked to refresh. */
    method HandleModalClose(shouldRefresh: bool, dataReply: Reply<Donnee>, enqueteursReply: Reply<Enqueteur>)
      modifies this
      ensures !isUpdateModalOpen && selectedData == None
      ensures !shouldRefresh ==>
        donnees == old(donnees) && filteredDonnees == old(filteredDonnees) && enqueteurs == old(enqueteurs)
        && loading == old(loading) && error == old(error)
      ensures shouldRefresh ==> Fetched(dataReply, enqueteursReply)
      ensures searchTerm == old(searchTerm)
    {
      isUpdateModalOpen := false;
      selectedData := None;
      if shouldRefresh {
        FetchData(dataReply, enqueteursReply);
      }
    }
  }
}
