/**
 * The activity-log schema (backend/models/Log.js): `username`, `activity` and
 * `createdBy` are required strings, `count` is a Number and `updatedBy` a
 * String, both defaulting to null, and the store stamps `createdAt` and
 * `updatedAt` on every saved document.
 */
module LogSchema {
  import opened Wrappers
  import opened Text
  import opened Json

  /** The five paths of the schema, in declaration order. */
  const LogPaths: seq<string> := ["username", "activity", "count", "createdBy", "updatedBy"]

  /** The paths the schema marks required, in declaration order. */
  const RequiredPaths: seq<string> := ["username", "activity", "createdBy"]

  /** The document fields taken from a request once cast and validated. */
  datatype Fields = Fields(
    username: string,
    activity: string,
    count: Option<int>,
    createdBy: string,
    updatedBy: Option<string>)

  /** A saved log document: the fields plus the store-assigned id and timestamps. */
  datatype LogEntry = LogEntry(
    id: nat,
    username: string,
    activity: string,
    count: Option<int>,
    createdBy: string,
    updatedBy: Option<string>,
    createdAt: int,
    updatedAt: int)

  datatype ErrorKind = Required | CastToNumber(value: string)

  /** One validation error, reported against the path it belongs to. */
  datatype FieldError = FieldError(path: string, kind: ErrorKind)

  /** Casting a JSON value to a String path; `undefined` and null stay null. */
  function CastString(v: Option<Value>): (r: Option<string>)
    ensures v == Some(Null) || v.None? ==> r.None?
    ensures v.Some? && v.value.Str? ==> r == Some(v.value.s)
    ensures v.Some? && v.value.Num? ==> r == Some(IntToString(v.value.n))
  {
    match v
    case None => None
    case Some(Null) => None
    case Some(Str(s)) => Some(s)
    case Some(Num(n)) => Some(IntToString(n))
  }

  /** A required String path holds a non-empty string after casting. */
  predicate HasString(body: Body, path: string) {
    var c := CastString(Lookup(body, path));
    c.Some? && |c.value| > 0
  }

  /** Casting a JSON value to a Number path; null, `undefined` and "" give null. */
  function CastNumber(path: string, v: Option<Value>): (r: Result<Option<int>, FieldError>)
    ensures r.Failure? <==> (exists s :: v == Some(Str(s))) && v.value.s != "" && ParseExactInt(v.value.s).None?
    ensures r.Failure? ==> r.error.path == path
    ensures v.Some? && v.value.Num? ==> r == Success(Some(v.value.n))
    ensures v.None? || v == Some(Null) || v == Some(Str("")) ==> r == Success(None)
    ensures v.Some? && v.value.Str? && ParseExactInt(v.value.s).Some? ==> r == Success(ParseExactInt(v.value.s))
  {
    match v
    case None => Success(None)
    case Some(Null) => Success(None)
    case Some(Num(n)) => Success(Some(n))
    case Some(Str(s)) =>
      if s == "" then Success(None)
      else match ParseExactInt(s)
        case Some(n) => Success(Some(n))
        case None => Failure(FieldError(path, CastToNumber(s)))
  }

  function RequiredString(body: Body, path: string): (r: Result<string, FieldError>)
    ensures r.Success? <==> HasString(body, path)
    ensures r.Failure? ==> r.error == FieldError(path, Required)
  {
    var c := CastString(Lookup(body, path));
    if c.Some? && |c.value| > 0 then Success(c.value) else Failure(FieldError(path, Required))
  }

  function ErrorsOf<T>(r: Result<T, FieldError>): seq<FieldError> {
    if r.Failure? then [r.error] else []
  }

  /** The required validators, in schema order: one Required error per missing path. */
  function MissingRequired(body: Body): (errs: seq<FieldError>)
    ensures errs == [] <==> HasString(body, "username") && HasString(body, "activity") && HasString(body, "createdBy")
    ensures forall k :: 0 <= k < |errs| ==>
      errs[k].kind == Required && errs[k].path in RequiredPaths && !HasString(body, errs[k].path)
  {
    ErrorsOf(RequiredString(body, "username")) + ErrorsOf(RequiredString(body, "activity"))
      + ErrorsOf(RequiredString(body, "createdBy"))
  }

  /** Every error of a document: the count cast error, recorded when it is built, then the required ones. */
  function ValidationErrors(body: Body): (errs: seq<FieldError>)
    ensures errs == [] <==> MissingRequired(body) == [] && CastNumber("count", Lookup(body, "count")).Success?
    ensures CastNumber("count", Lookup(body, "count")).Failure? ==>
      |errs| > 0 && errs[0] == CastNumber("count", Lookup(body, "count")).error
    ensures forall k :: 0 <= k < |errs| ==>
      || (errs[k].kind == Required && errs[k].path in RequiredPaths && !HasString(body, errs[k].path))
      || (k == 0 && CastNumber("count", Lookup(body, "count")).Failure?
          && errs[k] == CastNumber("count", Lookup(body, "count")).error)
  {
    var count := CastNumber("count", Lookup(body, "count"));
    var missing := MissingRequired(body);
    assert forall k :: 0 <= k < |missing| ==> (ErrorsOf(count) + missing)[|ErrorsOf(count)| + k] == missing[k];
    ErrorsOf(count) + missing
  }

  /**
   * What Mongoose does when the document is built from the five schema fields
   * and then saved. Building it casts every path and records a cast error at
   * once. Saving then runs the required validators, whose errors follow the cast
   * error, in the order the schema declares the paths.
   */
  function Validate(body: Body): (r: Result<Fields, seq<FieldError>>)
    ensures r.Success? <==>
      HasString(body, "username") && HasString(body, "activity") && HasString(body, "createdBy")
      && CastNumber("count", Lookup(body, "count")).Success?
    ensures r.Success? ==>
      && Some(r.value.username) == CastString(Lookup(body, "username"))
      && Some(r.value.activity) == CastString(Lookup(body, "activity"))
      && Some(r.value.createdBy) == CastString(Lookup(body, "createdBy"))
      && r.value.updatedBy == CastString(Lookup(body, "updatedBy"))
      && Success(r.value.count) == CastNumber("count", Lookup(body, "count"))
    ensures r.Failure? ==> |r.error| > 0 && forall e :: e in r.error ==> e.path in LogPaths
    ensures CastNumber("count", Lookup(body, "count")).Failure? ==>
      r.Failure? && r.error[0] == CastNumber("count", Lookup(body, "count")).error
    ensures r.Failure? ==> forall k :: 0 < k < |r.error| ==> r.error[k].kind == Required
    ensures r.Failure? ==> forall e :: e in r.error && e.kind == Required ==>
      e.path in RequiredPaths && !HasString(body, e.path)
    ensures r.Failure? ==> forall e :: e in r.error && e.kind.CastToNumber? ==>
      CastNumber("count", Lookup(body, "count")).Failure? && e == CastNumber("count", Lookup(body, "count")).error
  {
    var errors := ValidationErrors(body);
    if errors == [] then
      Success(Fields(CastString(Lookup(body, "username")).value, CastString(Lookup(body, "activity")).value,
                     CastNumber("count", Lookup(body, "count")).value, CastString(Lookup(body, "createdBy")).value,
                     CastString(Lookup(body, "updatedBy"))))
    else
      Failure(errors)
  }

  /** A saved document: the validated fields with the id and both timestamps the store assigns. */
  function NewEntry(f: Fields, id: nat, now: int): (e: LogEntry)
    ensures e.createdAt == now && e.updatedAt == now && e.id == id
    ensures Fields(e.username, e.activity, e.count, e.createdBy, e.updatedBy) == f
  {
    LogEntry(id, f.username, f.activity, f.count, f.createdBy, f.updatedBy, now, now)
  }

  function ErrorText(e: FieldError): string {
    match e.kind
    case Required => e.path + ": Path `" + e.path + "` is required."
    case CastToNumber(v) =>
      e.path + ": Cast to Number failed for value \"" + v + "\" (type string) at path \"" + e.path + "\""
  }

  function JoinErrors(errors: seq<FieldError>): string
    decreases |errors|
  {
    if errors == [] then ""
    else if |errors| == 1 then ErrorText(errors[0])
    else ErrorText(errors[0]) + ", " + JoinErrors(errors[1..])
  }

  /** The `err.message` of a failed validation. */
  function ValidationMessage(errors: seq<FieldError>): string {
    "Log validation failed: " + JoinErrors(errors)
  }

  /** A missing or empty required path is reported against that path, and nothing is accepted. */
  lemma MissingRequiredReported(body: Body, path: string)
    requires path == "username" || path == "activity" || path == "createdBy"
    requires !HasString(body, path)
    ensures Validate(body).Failure?
    ensures FieldError(path, Required) in Validate(body).error
  {
  }

  /** Omitted `count` and `updatedBy` default to null. */
  lemma OmittedOptionalsDefaultToNull(body: Body)
    requires Validate(body).Success?
    ensures "count" !in body ==> Validate(body).value.count.None?
    ensures "updatedBy" !in body ==> Validate(body).value.updatedBy.None?
  {
  }

  /** Only the five schema paths are read: any other key of the body is ignored. */
  lemma ValidateReadsOnlyLogPaths(body: Body, other: Body)
    requires forall k :: k in LogPaths ==> Lookup(body, k) == Lookup(other, k)
    ensures Validate(body) == Validate(other)
  {
    assert Lookup(body, LogPaths[0]) == Lookup(other, LogPaths[0]);
    assert Lookup(body, LogPaths[1]) == Lookup(other, LogPaths[1]);
    assert Lookup(body, LogPaths[2]) == Lookup(other, LogPaths[2]);
    assert Lookup(body, LogPaths[3]) == Lookup(other, LogPaths[3]);
    assert Lookup(body, LogPaths[4]) == Lookup(other, LogPaths[4]);
  }

  /**
   * A body of five well-typed fields, as the client sends it, is accepted and
   * saved with exactly those values.
   */
  lemma WellTypedBodyAccepted(username: string, activity: string, count: int, createdBy: string)
    requires username != "" && activity != "" && createdBy != ""
    ensures Validate(map["username" := Str(username), "activity" := Str(activity), "count" := Num(count),
                          "createdBy" := Str(createdBy), "updatedBy" := Null])
         == Success(Fields(username, activity, Some(count), createdBy, None))
  {
    var b := map["username" := Str(username), "activity" := Str(activity), "count" := Num(count),
                  "createdBy" := Str(createdBy), "updatedBy" := Null];
    assert Lookup(b, "username") == Some(Str(username)) && Lookup(b, "createdBy") == Some(Str(createdBy));
    assert Lookup(b, "activity") == Some(Str(activity)) && Lookup(b, "count") == Some(Num(count));
    assert Lookup(b, "updatedBy") == Some(Null);
    assert CastNumber("count", Lookup(b, "count")) == Success(Some(count));
    assert HasString(b, "username") && HasString(b, "activity") && HasString(b, "createdBy");
    assert MissingRequired(b) == [];
    assert ValidationErrors(b) == [];
  }
}
