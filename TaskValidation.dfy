/**
 * The backend's request checks: the create body, the update body and the id
 * parameter. Each reads a JSON value and returns either the parsed input,
 * holding exactly the declared fields, or the list of issues found.
 */
module TaskValidation {
  import opened Wrappers
  import opened Json
  import opened JsText
  import opened TaskDefaults

  /** The kinds of issue a check reports. */
  datatype IssueCode = InvalidType | TooSmall | TooBig | InvalidEnumValue | InvalidString

  /** One issue, with the path of the field it is about ([] for the value itself). */
  datatype Issue = Issue(path: seq<string>, code: IssueCode)

  datatype CreateInput = CreateInput(description: string)
  datatype UpdateInput = UpdateInput(description: Option<string>, status: Option<Status>)
  datatype ParamsInput = ParamsInput(id: string)

  /** The description bounds, applied to a length in UTF-16 code units. */
  predicate DescriptionFits(s: string) {
    DescriptionMinLength <= Utf16Length(s) <= DescriptionMaxLength
  }

  /** What the checks leave in a stored description: trimmed and within bounds. */
  predicate ValidDescription(s: string) {
    IsTrimmed(s) && DescriptionFits(s)
  }

  /** The description rule: a string, trimmed, then its length checked against both bounds. */
  function ParseDescription(v: Json): (r: Result<string, seq<Issue>>)
    ensures r.Ok? <==> v.JString? && DescriptionFits(Trim(v.s))
    ensures r.Ok? ==> r.value == Trim(v.s) && ValidDescription(r.value)
    ensures r.Err? ==> r.error != []
    ensures r.Err? ==> forall i :: 0 <= i < |r.error| ==> r.error[i].path == ["description"]
    ensures !v.JString? ==> r == Err([Issue(["description"], InvalidType)])
    ensures v.JString? && Utf16Length(Trim(v.s)) < DescriptionMinLength ==>
              r == Err([Issue(["description"], TooSmall)])
    ensures v.JString? && Utf16Length(Trim(v.s)) > DescriptionMaxLength ==>
              r == Err([Issue(["description"], TooBig)])
  {
    match v
    case JString(s) =>
      var t := Trim(s);
      var n := Utf16Length(t);
      var issues := (if n < DescriptionMinLength then [Issue(["description"], TooSmall)] else [])
                    + (if n > DescriptionMaxLength then [Issue(["description"], TooBig)] else []);
      assert n < DescriptionMinLength ==> issues == [Issue(["description"], TooSmall)];
      assert n > DescriptionMaxLength ==> issues == [Issue(["description"], TooBig)];
      if issues == [] then Ok(t) else Err(issues)
    case _ => Err([Issue(["description"], InvalidType)])
  }

  /** The status rule: a string naming one of the two statuses. */
  function ParseStatusField(v: Json): (r: Result<Status, seq<Issue>>)
    ensures r.Ok? <==> v.JString? && (v.s == Pending.Label() || v.s == Completed.Label())
    ensures r.Ok? ==> r.value.Label() == v.s
    ensures r.Err? ==> |r.error| == 1 && r.error[0].path == ["status"]
    ensures !v.JString? ==> r == Err([Issue(["status"], InvalidType)])
    ensures v.JString? && ParseStatus(v.s).None? ==> r == Err([Issue(["status"], InvalidEnumValue)])
  {
    LabelsDistinct();
    match v
    case JString(s) =>
      (match ParseStatus(s)
       case Some(st) => Ok(st)
       case None => Err([Issue(["status"], InvalidEnumValue)]))
    case _ => Err([Issue(["status"], InvalidType)])
  }

  /** The create body: an object with a required description. Other keys are dropped. */
  function ParseCreate(body: Json): (r: Result<CreateInput, seq<Issue>>)
    ensures r.Ok? <==> body.JObject? && "description" in body.fields
                       && body.fields["description"].JString?
                       && DescriptionFits(Trim(body.fields["description"].s))
    ensures r.Ok? ==> r.value.description == Trim(body.fields["description"].s)
    ensures r.Ok? ==> ValidDescription(r.value.description)
    ensures r.Err? ==> r.error != []
    ensures !body.JObject? ==> r == Err([Issue([], InvalidType)])
    ensures body.JObject? && r.Err? ==>
              forall i :: 0 <= i < |r.error| ==> r.error[i].path == ["description"]
    ensures body.JObject? && "description" !in body.fields ==>
              r == Err([Issue(["description"], InvalidType)])
    ensures body.JObject? && "description" in body.fields && r.Err? ==>
              r.error == ParseDescription(body.fields["description"]).error
  {
    match body
    case JObject(fields) =>
      if "description" !in fields then Err([Issue(["description"], InvalidType)])
      else
        (match ParseDescription(fields["description"])
         case Ok(t) => Ok(CreateInput(t))
         case Err(issues) => Err(issues))
    case _ => Err([Issue([], InvalidType)])
  }

  /**
   * The update body: an object whose description and status are both
   * optional; a present field must pass its rule. Every issue of both fields
   * is reported, description first. Other keys are dropped.
   */
  function ParseUpdate(body: Json): (r: Result<UpdateInput, seq<Issue>>)
    ensures r.Ok? <==> body.JObject?
                       && ("description" in body.fields ==>
                             body.fields["description"].JString?
                             && DescriptionFits(Trim(body.fields["description"].s)))
                       && ("status" in body.fields ==>
                             body.fields["status"].JString?
                             && ParseStatus(body.fields["status"].s).Some?)
    ensures r.Ok? ==> (r.value.description.Some? <==> "description" in body.fields)
    ensures r.Ok? && r.value.description.Some? ==>
              r.value.description.value == Trim(body.fields["description"].s)
              && ValidDescription(r.value.description.value)
    ensures r.Ok? ==> (r.value.status.Some? <==> "status" in body.fields)
    ensures r.Ok? && r.value.status.Some? ==> r.value.status.value.Label() == body.fields["status"].s
    ensures r.Err? ==> r.error != []
    ensures !body.JObject? ==> r == Err([Issue([], InvalidType)])
    ensures body.JObject? && r.Err? ==>
              forall i :: 0 <= i < |r.error| ==>
                r.error[i].path == ["description"] || r.error[i].path == ["status"]
  {
    match body
    case JObject(fields) =>
      var d := if "description" in fields then ParseDescription(fields["description"]) else Ok("");
      var s := if "status" in fields then ParseStatusField(fields["status"]) else Ok(Pending);
      var issues := (if d.Err? then d.error else []) + (if s.Err? then s.error else []);
      if issues != [] then Err(issues)
      else
        Ok(UpdateInput(if "description" in fields then Some(d.value) else None,
                       if "status" in fields then Some(s.value) else None))
    case _ => Err([Issue([], InvalidType)])
  }

  /**
   * The UUID textual form of section 3 of RFC 4122: 36 characters, hyphens at
   * offsets 8, 13, 18 and 23, a hexadecimal digit (either case) everywhere else.
   */
  predicate IsUuid(s: string) {
    |s| == 36
    && forall i :: 0 <= i < |s| ==>
         if i == 8 || i == 13 || i == 18 || i == 23 then s[i] == '-' else IsHexDigit(s[i])
  }

  /**
   * The same form as the RFC writes it: time-low "-" time-mid "-"
   * time-high-and-version "-" clock-seq-and-reserved clock-seq-low "-" node,
   * groups of 8, 4, 4, 4 and 12 hex digits.
   */
  predicate IsUuidByGroups(s: string) {
    |s| == 36
    && AllHex(s[0..8]) && s[8] == '-'
    && AllHex(s[9..13]) && s[13] == '-'
    && AllHex(s[14..18]) && s[18] == '-'
    && AllHex(s[19..23]) && s[23] == '-'
    && AllHex(s[24..36])
  }

  /** The positional and the grouped reading of the UUID form agree. */
  lemma UuidForms(s: string)
    ensures IsUuid(s) <==> IsUuidByGroups(s)
  {
    if IsUuidByGroups(s) {
      forall i | 0 <= i < |s|
        ensures if i == 8 || i == 13 || i == 18 || i == 23 then s[i] == '-' else IsHexDigit(s[i])
      {
        if i < 8 { assert s[0..8][i] == s[i]; }
        else if 8 < i < 13 { assert s[9..13][i - 9] == s[i]; }
        else if 13 < i < 18 { assert s[14..18][i - 14] == s[i]; }
        else if 18 < i < 23 { assert s[19..23][i - 19] == s[i]; }
        else if 23 < i { assert s[24..36][i - 24] == s[i]; }
      }
    }
  }

  /** The id parameter: an object whose `id` is a string in UUID form. */
  function ParseParams(params: Json): (r: Result<ParamsInput, seq<Issue>>)
    ensures r.Ok? <==> params.JObject? && "id" in params.fields
                       && params.fields["id"].JString? && IsUuid(params.fields["id"].s)
    ensures r.Ok? ==> r.value.id == params.fields["id"].s
    ensures r.Err? ==> |r.error| == 1
    ensures !params.JObject? ==> r == Err([Issue([], InvalidType)])
    ensures params.JObject? && r.Err? ==> r.error[0].path == ["id"]
    ensures params.JObject? && "id" in params.fields && params.fields["id"].JString?
              && !IsUuid(params.fields["id"].s) ==>
              r == Err([Issue(["id"], InvalidString)])
    ensures params.JObject? && !("id" in params.fields && params.fields["id"].JString?) ==>
              r == Err([Issue(["id"], InvalidType)])
  {
    match params
    case JObject(fields) =>
      if "id" !in fields then Err([Issue(["id"], InvalidType)])
      else
        (match fields["id"]
         case JString(s) => if IsUuid(s) then Ok(ParamsInput(s)) else Err([Issue(["id"], InvalidString)])
         case _ => Err([Issue(["id"], InvalidType)]))
    case _ => Err([Issue([], InvalidType)])
  }

  /** The body that carries a parsed create input. */
  function CreateBody(c: CreateInput): (b: Json)
    ensures b.JObject? && b.fields.Keys == {"description"}
  {
    JObject(map["description" := JString(c.description)])
  }

  /** Sending a parsed create input again parses to the same input. */
  lemma CreateRoundTrip(body: Json)
    requires ParseCreate(body).Ok?
    ensures ParseCreate(CreateBody(ParseCreate(body).value)) == ParseCreate(body)
  {
    var t := ParseCreate(body).value.description;
    TrimOfTrimmed(t);
  }

  /** A description made only of whitespace is refused by the create check. */
  lemma WhitespaceOnlyRejected(body: Json)
    requires body.JObject? && "description" in body.fields
    requires body.fields["description"].JString? && AllWhitespace(body.fields["description"].s)
    ensures ParseCreate(body).Err?
    ensures ParseUpdate(body).Err?
  {
    TrimOfAllWhitespace(body.fields["description"].s);
  }

  /** The update check requires no field: the empty object passes and updates nothing. */
  lemma EmptyUpdateAccepted()
    ensures ParseUpdate(JObject(map[])) == Ok(UpdateInput(None, None))
  {
  }

  /** Keys other than `description` do not influence the create check. */
  lemma CreateIgnoresUndeclaredKeys(f: map<string, Json>, g: map<string, Json>)
    requires SameField(f, g, "description")
    ensures ParseCreate(JObject(f)) == ParseCreate(JObject(g))
  {
    if "description" in f {
      assert f["description"] == g["description"];
    }
  }

  /** Keys other than `description` and `status` do not influence the update check. */
  lemma UpdateIgnoresUndeclaredKeys(f: map<string, Json>, g: map<string, Json>)
    requires SameField(f, g, "description") && SameField(f, g, "status")
    ensures ParseUpdate(JObject(f)) == ParseUpdate(JObject(g))
  {
  }

  /** Keys other than `id` do not influence the id check. */
  lemma ParamsIgnoreUndeclaredKeys(f: map<string, Json>, g: map<string, Json>)
    requires SameField(f, g, "id")
    ensures ParseParams(JObject(f)) == ParseParams(JObject(g))
  {
  }

  /** Both objects lack `key`, or both hold the same value under it. */
  predicate SameField(f: map<string, Json>, g: map<string, Json>, key: string) {
    (key in f <==> key in g) && (key in f ==> f[key] == g[key])
  }
}
