/** The investigator-update modal opened from the case list: the labels shown
    for a case's requested and mandatory search elements, the form state
    `enqueteurData` edited one input at a time, and the controls that close
    the modal. */
module UpdateModal {
  import opened Common

  /** The search-element codes `TYPE_RECHERCHE` knows, in its order. */
  const SearchCodes: string := "ATDBER"

  /** `TYPE_RECHERCHE[code]`: the label of a search-element code, or `None`
      (JavaScript's `undefined`, rendered as nothing) for any other character. */
  function TypeRecherche(code: char): (text: Option<string>)
    ensures text.Some? <==> code in SearchCodes
  {
    match code
    case 'A' => Some("Adresse")
    case 'T' => Some("Téléphone")
    case 'D' => Some("Décès")
    case 'B' => Some("Coordonnées bancaires")
    case 'E' => Some("Coordonnées employeur")
    case 'R' => Some("Revenus")
    case _ => None
  }

  /** The code a label stands for: the inverse of `TypeRecherche`. */
  function CodeOf(text: string): (code: Option<char>)
    ensures code.Some? ==> TypeRecherche(code.value) == Some(text)
  {
    if text == "Adresse" then Some('A')
    else if text == "Téléphone" then Some('T')
    else if text == "Décès" then Some('D')
    else if text == "Coordonnées bancaires" then Some('B')
    else if text == "Coordonnées employeur" then Some('E')
    else if text == "Revenus" then Some('R')
    else None
  }

  /** Every label is decoded back to its own code, so no two codes share a
      label and a displayed label identifies the code that was sent. */
  lemma LabelsIdentifyCodes(code: char)
    requires code in SearchCodes
    ensures CodeOf(TypeRecherche(code).value) == Some(code)
  {
    assert code == 'A' || code == 'T' || code == 'D' || code == 'B' || code == 'E' || code == 'R';
  }

  /** `codes.split('')`: the characters of a code string, one element each;
      an absent string (undefined or null) gives the empty list. */
  function Elements(codes: Option<string>): (elements: seq<char>)
    ensures codes.None? ==> elements == []
    ensures codes.Some? ==> |elements| == |codes.value|
    ensures codes.Some? ==> forall k :: 0 <= k < |elements| ==> elements[k] == codes.value[k]
  {
    match codes
    case None => []
    case Some(s) => s
  }

  /** `elements.map(code => TYPE_RECHERCHE[code])`: one label per code, in order. */
  function Labels(elements: seq<char>): (labels: seq<Option<string>>)
    ensures |labels| == |elements|
    ensures forall k :: 0 <= k < |labels| ==> labels[k] == TypeRecherche(elements[k])
  {
    if elements == [] then [] else [TypeRecherche(elements[0])] + Labels(elements[1..])
  }

  /** The fields of the case the modal reads for its header. */
  datatype Case = Case(typeDemande: Option<string>, elementDemandes: Option<string>, elementObligatoires: Option<string>)

  /** What the header shows: the request type, and the labels of the
      requested and the mandatory elements. */
  datatype Header = Header(typeLabel: string, demandes: seq<Option<string>>, obligatoires: seq<Option<string>>)

  /** The request type as displayed: "Enquête" for an "ENQ" request, and
      "Contestation" for any other value, a missing one included. */
  function TypeLabel(typeDemande: Option<string>): (shown: string)
    ensures shown == "Enquête" <==> typeDemande == Some("ENQ")
    ensures shown != "Enquête" ==> shown == "Contestation"
  {
    if typeDemande == Some("ENQ") then "Enquête" else "Contestation"
  }

  /** The rendered header, or `None` when the modal is closed. A missing case
      reads like a case whose fields are all absent. */
  function Render(isOpen: bool, data: Option<Case>): (header: Option<Header>)
    ensures header.None? <==> !isOpen
  {
    if !isOpen then None
    else
      var c := if data.Some? then data.value else Case(None, None, None);
      Some(Header(TypeLabel(c.typeDemande), Labels(Elements(c.elementDemandes)), Labels(Elements(c.elementObligatoires))))
  }

  /** An open modal shows one entry per requested code, in order: a label for
      exactly the codes `TYPE_RECHERCHE` knows, and that label decodes back
      to the code. */
  lemma RenderedDemandes(data: Case)
    ensures var header := Render(true, Some(data)).value;
      var codes := Elements(data.elementDemandes);
      |header.demandes| == |codes|
      && (forall k :: 0 <= k < |codes| ==> (header.demandes[k].Some? <==> codes[k] in SearchCodes))
      && (forall k :: 0 <= k < |codes| && codes[k] in SearchCodes ==> CodeOf(header.demandes[k].value) == Some(codes[k]))
  {
    var codes := Elements(data.elementDemandes);
    forall k | 0 <= k < |codes| && codes[k] in SearchCodes
      ensures CodeOf(TypeRecherche(codes[k]).value) == Some(codes[k])
    {
      LabelsIdentifyCodes(codes[k]);
    }
  }

  /** The same for the mandatory codes. */
  lemma RenderedObligatoires(data: Case)
    ensures var header := Render(true, Some(data)).value;
      var codes := Elements(data.elementObligatoires);
      |header.obligatoires| == |codes|
      && (forall k :: 0 <= k < |codes| ==> (header.obligatoires[k].Some? <==> codes[k] in SearchCodes))
      && (forall k :: 0 <= k < |codes| && codes[k] in SearchCodes ==> CodeOf(header.obligatoires[k].value) == Some(codes[k]))
  {
    var codes := Elements(data.elementObligatoires);
    forall k | 0 <= k < |codes| && codes[k] in SearchCodes
      ensures CodeOf(TypeRecherche(codes[k]).value) == Some(codes[k])
    {
      LabelsIdentifyCodes(codes[k]);
    }
  }

  /** The keys of `enqueteurData` when the modal mounts, in declaration order. */
  const FormKeys: seq<string> := [
    "code_resultat", "elements_retrouves", "flag_etat_civil_errone", "date_retour",
    "adresse1", "adresse2", "adresse3", "adresse4", "code_postal", "ville", "pays",
    "telephone_personnel", "telephone_employeur",
    "banque_domiciliation", "libelle_guichet", "code_banque", "code_guichet",
    "commentaires_revenus", "montant_salaire", "periode_versement_salaire", "frequence_versement_salaire",
    "memo1", "memo2", "memo3", "memo4", "memo5"]

  /** The initial `enqueteurData`: every key empty except `pays`, which is
      "FRANCE", and `date_retour`, which is the day the modal mounts (given
      here as `today`, since the model has no clock). */
  function InitialData(today: string): (d: map<string, string>)
    ensures forall k :: k in d <==> k in FormKeys
    ensures "pays" in d && d["pays"] == "FRANCE"
    ensures "date_retour" in d && d["date_retour"] == today
    ensures forall k :: k in d && k != "pays" && k != "date_retour" ==> d[k] == ""
  {
    assert FormKeys[3] == "date_retour" && FormKeys[10] == "pays";
    map k | k in FormKeys :: if k == "pays" then "FRANCE" else if k == "date_retour" then today else ""
  }

  /** `{...prev, [name]: value}`: the form data after one input changes. */
  function WithInput(d: map<string, string>, name: string, value: string): (r: map<string, string>)
    ensures name in r && r[name] == value
    ensures forall k :: k != name ==> (k in r <==> k in d)
    ensures forall k :: k != name && k in d ==> r[k] == d[k]
  {
    d[name := value]
  }

  /** What the user can do in the open modal. */
  datatype Event =
    | InputChange(name: string, value: string)  // an input or select fires `onChange`
    | HeaderClose                               // the cross in the header
    | CancelClick                               // the "Annuler" button
    | SubmitForm                                // the "Enregistrer" button submits the form

  /** The form data after one event: only an input change touches it. */
  function Step(d: map<string, string>, e: Event): map<string, string> {
    if e.InputChange? then WithInput(d, e.name, e.value) else d
  }

  /** The argument `onClose` is called with, when it is called: `false` for
      both close controls; the submit handler only prevents the default. */
  function CloseRequest(e: Event): (closeWith: Option<bool>)
    ensures closeWith.Some? <==> e == HeaderClose || e == CancelClick
    ensures closeWith.Some? ==> !closeWith.value
  {
    if e == HeaderClose || e == CancelClick then Some(false) else None
  }

  /** The form data after a sequence of events. */
  function After(d: map<string, string>, events: seq<Event>): map<string, string>
    decreases |events|
  {
    if events == [] then d else After(Step(d, events[0]), events[1..])
  }

  /** The `onClose` calls a sequence of events makes, in order: none of them
      asks the case list to refresh. */
  function CloseRequests(events: seq<Event>): (calls: seq<bool>)
    ensures |calls| <= |events|
    ensures forall k :: 0 <= k < |calls| ==> !calls[k]
  {
    if events == [] then []
    else
      var rest := CloseRequests(events[1..]);
      match CloseRequest(events[0])
      case Some(b) => [b] + rest
      case None => rest
  }

  /** Every close control is heard: a sequence holding one makes at least one
      `onClose` call. */
  lemma {:induction false} CloseIsHeard(events: seq<Event>, k: nat)
    requires k < |events| && (events[k] == HeaderClose || events[k] == CancelClick)
    ensures CloseRequests(events) != []
    decreases k
  {
    if k > 0 {
      CloseIsHeard(events[1..], k - 1);
    }
  }

  /** Processing events one after another: the data after `events + [e]` is
      one step on from the data after `events`. */
  lemma {:induction false} AfterAppend(d: map<string, string>, events: seq<Event>, e: Event)
    ensures After(d, events + [e]) == Step(After(d, events), e)
    decreases |events|
  {
    if events != [] {
      assert (events + [e])[1..] == events[1..] + [e];
      AfterAppend(Step(d, events[0]), events[1..], e);
    }
  }

  /** The last input to a field sets it, whatever came before. */
  lemma LastInputWins(d: map<string, string>, events: seq<Event>, name: string, value: string)
    ensures var r := After(d, events + [InputChange(name, value)]);
      name in r && r[name] == value
  {
    AfterAppend(d, events, InputChange(name, value));
  }

  /** A field that no input names keeps its presence and value through any
      sequence of events. */
  lemma {:induction false} UntouchedFieldKept(d: map<string, string>, events: seq<Event>, key: string)
    requires forall k :: 0 <= k < |events| ==> !(events[k].InputChange? && events[k].name == key)
    ensures key in After(d, events) <==> key in d
    ensures key in d ==> After(d, events)[key] == d[key]
    decreases |events|
  {
    if events != [] {
      UntouchedFieldKept(Step(d, events[0]), events[1..], key);
    }
  }

  /** The modal's own state. */
  class ModalState {
    var enqueteurData: map<string, string>

    /** Mounting the modal on day `today`. */
    constructor (today: string)
      ensures enqueteurData == InitialData(today)
    {
      enqueteurData := InitialData(today);
    }

    /** `handleInputChange`: the named field takes the new value. */
    method HandleInputChange(name: string, value: string)
      modifies this
      ensures enqueteurData == WithInput(old(enqueteurData), name, value)
    {
      enqueteurData := enqueteurData[name := value];
    }

    /** One user action on the open modal: returns the argument `onClose` is
        called with, if it is called. */
    method Handle(e: Event) returns (closeWith: Option<bool>)
      modifies this
      ensures enqueteurData == Step(old(enqueteurData), e)
      ensures closeWith == CloseRequest(e)
    {
      closeWith := None;
      match e
      case InputChange(name, value) =>
        HandleInputChange(name, value);
      case HeaderClose =>
        closeWith := Some(false);
      case CancelClick =>
        closeWith := Some(false);
      case SubmitForm =>
    }
  }
}
