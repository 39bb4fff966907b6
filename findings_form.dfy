/** The investigator's findings form (frontend/src/components/LegacyUpdateForm.jsx):
    filled from the findings already stored for a case, edited, completed
    from address suggestions, and sent back as a payload whose keys are those
    of the stored findings. */
module FindingsForm {
  import opened Common

  /** The form's fields. */
  datatype FormData = FormData(
    codeResultat: string,
    codeResultatAdresse: string,
    telephone: string,
    adresse1: string,
    adresse2: string,
    adresse3: string,
    adresse4: string,
    codePostal: string,
    ville: string,
    pays: string,
    montantFacture: string,
    montantCumule: string,
    tarifApplicable: string)

  /** The findings of a case as stored and exchanged with the back end
      (`donnee_enqueteur`); a value may be missing or null (`None`). */
  datatype Findings = Findings(
    codeResultat: Option<string>,
    codeResultatAdresse: Option<string>,
    telephonePersonnel: Option<string>,
    adresse1: Option<string>,
    adresse2: Option<string>,
    adresse3: Option<string>,
    adresse4: Option<string>,
    codePostal: Option<string>,
    ville: Option<string>,
    paysResidence: Option<string>,
    montantFacture: Option<string>,
    cumulMontantsPrecedents: Option<string>,
    tarifApplique: Option<string>)

  /** What the form posts: the case id and the findings. */
  datatype Payload = Payload(donneeId: int, fields: Findings)

  /** The form before any record is loaded: everything empty but the country. */
  const InitialForm: FormData := FormData("", "", "", "", "", "", "", "", "", "FRANCE", "", "", "")

  /** `v || d` for a value that is a string or null: the empty string and a
      missing value both give way to `d`. */
  function OrDefault(v: Option<string>, d: string): (r: string)
    ensures v.Some? && v.value != "" ==> r == v.value
    ensures v.None? || v.value == "" ==> r == d
  {
    if v.None? || v.value == "" then d else v.value
  }

  /** `s || null` for a string. */
  function NullIfEmpty(s: string): (r: Option<string>)
    ensures r.None? <==> s == ""
    ensures r.Some? ==> r.value == s
  {
    if s == "" then None else Some(s)
  }

  /** The hydration effect: with stored findings every field is taken from
      them (the two result codes defaulting to "T", the country to "FRANCE"
      and everything else to ""); without them the form is left as it is. */
  function Hydrate(prev: FormData, findings: Option<Findings>): FormData {
    match findings
    case None => prev
    case Some(f) =>
      FormData(
        OrDefault(f.codeResultat, "T"),
        OrDefault(f.codeResultatAdresse, "T"),
        OrDefault(f.telephonePersonnel, ""),
        OrDefault(f.adresse1, ""),
        OrDefault(f.adresse2, ""),
        OrDefault(f.adresse3, ""),
        OrDefault(f.adresse4, ""),
        OrDefault(f.codePostal, ""),
        OrDefault(f.ville, ""),
        OrDefault(f.paysResidence, "FRANCE"),
        OrDefault(f.montantFacture, ""),
        OrDefault(f.cumulMontantsPrecedents, ""),
        OrDefault(f.tarifApplique, ""))
  }

  /** `dataToSend`: the fields under the stored findings' names, with the
      three amounts sent as null when empty. */
  function ToPayload(donneeId: int, form: FormData): Payload {
    Payload(donneeId, Findings(
      Some(form.codeResultat),
      Some(form.codeResultatAdresse),
      Some(form.telephone),
      Some(form.adresse1),
      Some(form.adresse2),
      Some(form.adresse3),
      Some(form.adresse4),
      Some(form.codePostal),
      Some(form.ville),
      Some(form.pays),
      NullIfEmpty(form.montantFacture),
      NullIfEmpty(form.montantCumule),
      NullIfEmpty(form.tarifApplicable)))
  }

  /** Findings with nothing stored. */
  const NoFindings: Findings := Findings(None, None, None, None, None, None, None, None, None, None, None, None, None)

  /** Hydrating from stored findings does not depend on what the form held. */
  lemma HydrateForgetsPrevious(a: FormData, b: FormData, f: Findings)
    ensures Hydrate(a, Some(f)) == Hydrate(b, Some(f))
  {}

  /** Findings with nothing stored give the initial form, except that both
      result codes read "T". */
  lemma HydrateNothingStored(prev: FormData)
    ensures Hydrate(prev, Some(NoFindings)) == InitialForm.(codeResultat := "T", codeResultatAdresse := "T")
  {}

  /** A form sent and then hydrated from the payload as sent comes back the
      same exactly when its two result codes and its country are not empty;
      an empty one of those comes back as its default. Everything else,
      including an empty amount sent as null, survives the round trip. */
  lemma PayloadRoundTrip(donneeId: int, form: FormData, prev: FormData)
    ensures Hydrate(prev, Some(ToPayload(donneeId, form).fields)) == form
      <==> form.codeResultat != "" && form.codeResultatAdresse != "" && form.pays != ""
    ensures var back := Hydrate(prev, Some(ToPayload(donneeId, form).fields));
      back == form.(codeResultat := if form.codeResultat == "" then "T" else form.codeResultat,
                    codeResultatAdresse := if form.codeResultatAdresse == "" then "T" else form.codeResultatAdresse,
                    pays := if form.pays == "" then "FRANCE" else form.pays)
  {
    var back := Hydrate(prev, Some(ToPayload(donneeId, form).fields));
    if form.codeResultat == "" {
      assert back.codeResultat != form.codeResultat;
    }
    if form.codeResultatAdresse == "" {
      assert back.codeResultatAdresse != form.codeResultatAdresse;
    }
    if form.pays == "" {
      assert back.pays != form.pays;
    }
  }

  /** The payload carries the case id, renames the phone, country and two of
      the amounts, and sends an amount as null exactly when it is empty. */
  lemma PayloadMeaning(donneeId: int, form: FormData)
    ensures var p := ToPayload(donneeId, form);
      p.donneeId == donneeId
      && p.fields.telephonePersonnel == Some(form.telephone)
      && p.fields.paysResidence == Some(form.pays)
      && (p.fields.montantFacture.None? <==> form.montantFacture == "")
      && (p.fields.cumulMontantsPrecedents.None? <==> form.montantCumule == "")
      && (p.fields.tarifApplique.None? <==> form.tarifApplicable == "")
      && (p.fields.montantFacture.Some? ==> p.fields.montantFacture.value == form.montantFacture)
      && (p.fields.cumulMontantsPrecedents.Some? ==> p.fields.cumulMontantsPrecedents.value == form.montantCumule)
      && (p.fields.tarifApplique.Some? ==> p.fields.tarifApplique.value == form.tarifApplicable)
  {}

  /** An address found by the full-address search. */
  datatype AddressSuggestion = AddressSuggestion(adresse: string, codePostal: string, ville: string, adresseComplete: string)

  /** A postal-code suggestion, with the caption shown for it. */
  datatype PostalSuggestion = PostalSuggestion(codePostal: string, ville: string, caption: string)

  /** A municipality found for a postal code. */
  datatype City = City(nom: string, code: string)

  /** A street found for a municipality. */
  datatype Street = Street(nom: string, id: string)

  /** The suggestion lists; the street list exists only once a street search
      has filled it. */
  datatype Suggestions = Suggestions(
    adresses: seq<AddressSuggestion>,
    codesPostaux: seq<PostalSuggestion>,
    villes: seq<City>,
    rues: Option<seq<Street>>)

  /** The municipality search: it failed, or it found these municipalities. */
  datatype CityLookup = LookupFailed | Found(villes: seq<City>)

  /** The outcome of posting the form: it threw, or it answered with a
      `success` flag. */
  datatype SubmitReply = SubmitThrown | SubmitAnswered(success: bool)

  /** The state of the form. */
  class FindingsFormState {
    var formData: FormData
    var suggestions: Suggestions
    var isLoadingVille: bool

    constructor ()
      ensures formData == InitialForm
      ensures suggestions == Suggestions([], [], [], None) && !isLoadingVille
    {
      formData := InitialForm;
      suggestions := Suggestions([], [], [], None);
      isLoadingVille := false;
    }

    /** The hydration effect, run when the record changes. */
    method HydrateFrom(findings: Option<Findings>)
      modifies this
      ensures formData == Hydrate(old(formData), findings)
      ensures suggestions == old(suggestions) && isLoadingVille == old(isLoadingVille)
    {
      formData := Hydrate(formData, findings);
    }

    /** `handleAddressSelect`: takes street, postal code and town from the
        suggestion, sets the country to "FRANCE" and empties every
        suggestion list. */
    method HandleAddressSelect(adresse: AddressSuggestion)
      modifies this
      ensures formData == old(formData).(adresse3 := adresse.adresse, codePostal := adresse.codePostal,
                                         ville := adresse.ville, pays := "FRANCE")
      ensures suggestions == Suggestions([], [], [], None)
      ensures isLoadingVille == old(isLoadingVille)
    {
      formData := formData.(adresse3 := adresse.adresse, codePostal := adresse.codePostal,
                            ville := adresse.ville, pays := "FRANCE");
      suggestions := Suggestions([], [], [], None);
    }

    /** `searchAddress`, with the outcome of the municipality search as a
        parameter: only a five-character postal code is searched; what is
        found replaces the municipality suggestions, and a single
        municipality is also filled in, with the country "FRANCE". */
    method SearchAddress(codePostal: Option<string>, lookup: CityLookup)
      modifies this
      ensures codePostal.Some? && |codePostal.value| == 5 && lookup.Found? && |lookup.villes| > 0 ==>
        suggestions == old(suggestions).(villes := lookup.villes)
      ensures !(codePostal.Some? && |codePostal.value| == 5 && lookup.Found? && |lookup.villes| > 0) ==>
        suggestions == old(suggestions)
      ensures codePostal.Some? && |codePostal.value| == 5 && lookup.Found? && |lookup.villes| == 1 ==>
        formData == old(formData).(ville := lookup.villes[0].nom, pays := "FRANCE")
      ensures !(codePostal.Some? && |codePostal.value| == 5 && lookup.Found? && |lookup.villes| == 1) ==>
        formData == old(formData)
      ensures isLoadingVille == (if codePostal.Some? && |codePostal.value| == 5 then false else old(isLoadingVille))
    {
      if codePostal.Some? && |codePostal.value| == 5 {
        isLoadingVille := true;
        if lookup.Found? && |lookup.villes| > 0 {
          var villes := lookup.villes;
          suggestions := suggestions.(villes := villes);
          if |villes| == 1 {
            formData := formData.(ville := villes[0].nom, pays := "FRANCE");
          }
        }
        isLoadingVille := false;
      }
    }

    /** `handlePostalCodeChange` as defined: always stores the value; a
        five-character value starts the municipality search, any other
        empties the municipality suggestions. The rendered postal-code input
        does not call it: its own inline handler searches postal codes from
        two characters on, which is not part of this model. */
    method HandlePostalCodeChange(value: string, lookup: CityLookup)
      modifies this
      ensures |value| != 5 ==> formData == old(formData).(codePostal := value)
      ensures |value| != 5 ==> suggestions == old(suggestions).(villes := [])
      ensures |value| == 5 && lookup.Found? && |lookup.villes| == 1 ==>
        formData == old(formData).(codePostal := value, ville := lookup.villes[0].nom, pays := "FRANCE")
      ensures |value| == 5 && !(lookup.Found? && |lookup.villes| == 1) ==>
        formData == old(formData).(codePostal := value)
      ensures |value| == 5 && lookup.Found? && |lookup.villes| > 0 ==>
        suggestions == old(suggestions).(villes := lookup.villes)
      ensures |value| == 5 && !(lookup.Found? && |lookup.villes| > 0) ==> suggestions == old(suggestions)
      ensures isLoadingVille == (if |value| == 5 then false else old(isLoadingVille))
    {
      formData := formData.(codePostal := value);
      if |value| == 5 {
        SearchAddress(Some(value), lookup);
      } else {
        suggestions := suggestions.(villes := []);
      }
    }

    /** `handleSubmit`, with the reply to the post as a parameter: returns the
        payload posted and the argument `onClose` is called with, if it is
        called. Only a reply reporting success closes the form, asking the
        list to refresh; otherwise the form stays open as it is. */
    method HandleSubmit(donneeId: int, reply: SubmitReply) returns (sent: Payload, closeWith: Option<bool>)
      ensures sent == ToPayload(donneeId, formData)
      ensures closeWith.Some? <==> reply == SubmitAnswered(true)
      ensures closeWith.Some? ==> closeWith.value
    {
      var dataToSend := ToPayload(donneeId, formData);
      sent := dataToSend;
      closeWith := None;
      if reply.SubmitAnswered? && reply.success {
        closeWith := Some(true);
      }
    }

    /** The cancel buttons: they close the form without asking for a refresh. */
    method HandleCancel() returns (closeWith: bool)
      ensures !closeWith
    {
      closeWith := false;
    }
  }
}
