/**
 * The frontend's form checks. They test the raw description (no trim, no
 * upper bound), so they are weaker than the backend's: every body the backend
 * accepts passes them, and not conversely.
 */
module FrontendTaskValidation {
  import opened Json
  import opened JsText
  import opened TaskDefaults
  import TaskValidation

  /** A form value that is a non-empty string. */
  predicate NonEmptyString(v: Json) {
    v.JString? && Utf16Length(v.s) >= 1
  }

  /** A form value naming one of the two statuses. */
  predicate StatusString(v: Json) {
    v.JString? && (v.s == "pendente" || v.s == "concluída")
  }

  /** createTaskSchema: an object with a non-empty string description. */
  predicate AcceptsCreate(body: Json) {
    body.JObject? && "description" in body.fields && NonEmptyString(body.fields["description"])
  }

  /** updateTaskSchema: description and status both optional; present ones must pass. */
  predicate AcceptsUpdate(body: Json) {
    body.JObject?
    && ("description" in body.fields ==> NonEmptyString(body.fields["description"]))
    && ("status" in body.fields ==> StatusString(body.fields["status"]))
  }

  /** The frontend's status literals are the backend's labels. */
  lemma StatusLiteralsAgree(v: Json)
    ensures StatusString(v) <==> TaskValidation.ParseStatusField(v).Ok?
  {
  }

  /** A description the backend accepts is non-empty before trimming. */
  lemma BackendDescriptionIsNonEmpty(v: Json)
    requires TaskValidation.ParseDescription(v).Ok?
    ensures NonEmptyString(v)
  {
    TrimShortens(v.s);
  }

  /** Every create body the backend accepts, the frontend accepts. */
  lemma CreateBackendImpliesFrontend(body: Json)
    requires TaskValidation.ParseCreate(body).Ok?
    ensures AcceptsCreate(body)
  {
    BackendDescriptionIsNonEmpty(body.fields["description"]);
  }

  /** Every update body the backend accepts, the frontend accepts. */
  lemma UpdateBackendImpliesFrontend(body: Json)
    requires TaskValidation.ParseUpdate(body).Ok?
    ensures AcceptsUpdate(body)
  {
    if "description" in body.fields {
      BackendDescriptionIsNonEmpty(body.fields["description"]);
    }
    if "status" in body.fields {
      StatusLiteralsAgree(body.fields["status"]);
    }
  }

  /** A whitespace-only description passes the frontend and fails the backend. */
  lemma BlankDescriptionSeparates()
    ensures AcceptsCreate(JObject(map["description" := JString("   ")]))
    ensures TaskValidation.ParseCreate(JObject(map["description" := JString("   ")])).Err?
  {
    assert Utf16Length("   ") == 3 by { Utf16LengthOfBasicPlane("   "); }
    TrimOfAllWhitespace("   ");
  }

  /**
   * A description over 500 code units with no whitespace at its ends (501
   * letters, say) passes the frontend and fails the backend.
   */
  lemma LongDescriptionSeparates(s: string)
    requires IsTrimmed(s) && Utf16Length(s) > DescriptionMaxLength
    ensures AcceptsCreate(JObject(map["description" := JString(s)]))
    ensures TaskValidation.ParseCreate(JObject(map["description" := JString(s)])).Err?
  {
    TrimOfTrimmed(s);
  }
}
