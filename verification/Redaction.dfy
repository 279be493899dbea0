/**
 Audit redaction.  The patterns for sensitive keys, forbidden text and UUIDs are
 parameters; a value is a string, an array, an object, an error or a scalar that is
 returned as it is.
 */
module Redaction {
  import opened Basics

  datatype Value =
    | Scalar(text: string)
    | Str(chars: string)
    | Arr(items: seq<Value>)
    | Obj(fields: seq<Entry>)
    | Failure(name: string, message: string, cause: Option<Value>)

  datatype Entry = Entry(key: string, value: Value)

  datatype Patterns = Patterns(sensitive: string -> bool, forbidden: string -> bool, uuid: string -> bool)

  const Redacted := "[REDACTED]"
  const Undefined := "undefined"

  function Masked(): Value {
    Str(Redacted)
  }

  /** What holds of the patterns in use: the mask is not forbidden text and the keys an
      error is recorded under are not sensitive. */
  ghost predicate Usual(p: Patterns) {
    && !p.forbidden(Redacted)
    && !p.sensitive("name") && !p.sensitive("message") && !p.sensitive("errorMessage") && !p.sensitive("cause")
  }

  /** Text that may be shown. */
  predicate Showable(p: Patterns, s: string) {
    p.uuid(s) || !p.forbidden(s)
  }

  function Redact(p: Patterns, v: Value, key: string): Value {
    if p.sensitive(key) then Masked()
    else match v
      case Str(s) => if p.uuid(s) then v else if p.forbidden(s) then Masked() else v
      case Failure(name, message, cause) =>
        Obj([Entry("name", Str(name)),
             Entry("message", RedactText(p, message, "errorMessage")),
             Entry("cause", if cause.None? then Scalar(Undefined) else Redact(p, cause.value, "cause"))])
      case Arr(items) => Arr(seq(|items|, i requires 0 <= i < |items| => Redact(p, items[i], key)))
      case Obj(fields) => Obj(seq(|fields|, i requires 0 <= i < |fields| => RedactEntry(p, fields[i])))
      case Scalar(_) => v
  }

  function RedactEntry(p: Patterns, e: Entry): Entry {
    Entry(e.key, Redact(p, e.value, e.key))
  }

  function RedactText(p: Patterns, s: string, key: string): Value {
    if p.sensitive(key) || !Showable(p, s) then Masked() else Str(s)
  }

  // ----- what the log may contain -----

  /** Nothing under a sensitive key but the mask, and no forbidden text anywhere. */
  predicate Clean(p: Patterns, v: Value, key: string) {
    if p.sensitive(key) then v == Masked()
    else match v
      case Scalar(_) => true
      case Str(s) => Showable(p, s)
      case Arr(items) => forall i :: 0 <= i < |items| ==> Clean(p, items[i], key)
      case Obj(fields) => forall i :: 0 <= i < |fields| ==> CleanEntry(p, fields[i])
      case Failure(_, _, _) => false
  }

  predicate CleanEntry(p: Patterns, e: Entry) {
    Clean(p, e.value, e.key)
  }

  /** The names of the errors outside masked values may be shown. */
  predicate NamesShowable(p: Patterns, v: Value, key: string) {
    p.sensitive(key) || match v
      case Arr(items) => forall i :: 0 <= i < |items| ==> NamesShowable(p, items[i], key)
      case Obj(fields) => forall i :: 0 <= i < |fields| ==> EntryNamesShowable(p, fields[i])
      case Failure(name, _, cause) => Showable(p, name) && (cause.Some? ==> NamesShowable(p, cause.value, "cause"))
      case _ => true
  }

  predicate EntryNamesShowable(p: Patterns, e: Entry) {
    NamesShowable(p, e.value, e.key)
  }

  lemma FailureIsClean(p: Patterns, v: Value, key: string)
    requires Usual(p) && v.Failure? && !p.sensitive(key)
    ensures var fields := Redact(p, v, key).fields;
      Clean(p, Redact(p, v, key), key) <==>
        (Showable(p, v.name) && Clean(p, fields[2].value, "cause"))
  {
    var fields := Redact(p, v, key).fields;
    assert CleanEntry(p, fields[0]) == Showable(p, v.name);
    assert CleanEntry(p, fields[1]);
    assert CleanEntry(p, fields[2]) == Clean(p, fields[2].value, "cause");
  }

  /** The redacted value is clean exactly when the names of its errors may be shown:
      an error's name is the one thing copied without a look. */
  lemma {:induction false} RedactedIsClean(p: Patterns, v: Value, key: string)
    requires Usual(p)
    ensures Clean(p, Redact(p, v, key), key) <==> NamesShowable(p, v, key)
    decreases v
  {
    if !p.sensitive(key) {
      match v
      case Arr(items) =>
        forall i | 0 <= i < |items|
          ensures Clean(p, Redact(p, v, key).items[i], key) <==> NamesShowable(p, items[i], key)
        {
          RedactedIsClean(p, items[i], key);
        }
      case Obj(fields) =>
        forall i | 0 <= i < |fields|
          ensures CleanEntry(p, Redact(p, v, key).fields[i]) <==> EntryNamesShowable(p, fields[i])
        {
          RedactedIsClean(p, fields[i].value, fields[i].key);
        }
      case Failure(name, message, cause) =>
        FailureIsClean(p, v, key);
        if cause.Some? { RedactedIsClean(p, cause.value, "cause"); }
      case _ =>
    }
  }

  /** Clean values are the fixpoints of redaction. */
  lemma {:induction false} CleanIsFixpoint(p: Patterns, v: Value, key: string)
    requires Usual(p)
    ensures Clean(p, v, key) <==> Redact(p, v, key) == v
    decreases v
  {
    if !p.sensitive(key) {
      match v
      case Arr(items) =>
        forall i | 0 <= i < |items|
          ensures Clean(p, items[i], key) <==> Redact(p, v, key).items[i] == items[i]
        {
          CleanIsFixpoint(p, items[i], key);
        }
        if Clean(p, v, key) {
          assert Redact(p, v, key).items == items;
        }
      case Obj(fields) =>
        forall i | 0 <= i < |fields|
          ensures CleanEntry(p, fields[i]) <==> Redact(p, v, key).fields[i] == fields[i]
        {
          CleanIsFixpoint(p, fields[i].value, fields[i].key);
        }
        if Clean(p, v, key) {
          assert Redact(p, v, key).fields == fields;
        }
      case _ =>
    }
  }

  /** Redacting twice is redacting once, exactly when no hidden text is an error's name. */
  lemma RedactIdempotent(p: Patterns, v: Value, key: string)
    requires Usual(p)
    ensures Redact(p, Redact(p, v, key), key) == Redact(p, v, key) <==> NamesShowable(p, v, key)
  {
    RedactedIsClean(p, v, key);
    CleanIsFixpoint(p, Redact(p, v, key), key);
  }

  // ----- JSON values: no errors -----

  predicate IsJson(v: Value) {
    match v
    case Arr(items) => forall i :: 0 <= i < |items| ==> IsJson(items[i])
    case Obj(fields) => forall i :: 0 <= i < |fields| ==> IsJsonEntry(fields[i])
    case Failure(_, _, _) => false
    case _ => true
  }

  predicate IsJsonEntry(e: Entry) {
    IsJson(e.value)
  }

  lemma {:induction false} JsonHasNoNames(p: Patterns, v: Value, key: string)
    requires IsJson(v)
    ensures NamesShowable(p, v, key)
    decreases v
  {
    match v
    case Arr(items) =>
      forall i | 0 <= i < |items| ensures NamesShowable(p, items[i], key) {
        JsonHasNoNames(p, items[i], key);
      }
    case Obj(fields) =>
      forall i | 0 <= i < |fields| ensures EntryNamesShowable(p, fields[i]) {
        assert IsJsonEntry(fields[i]);
        JsonHasNoNames(p, fields[i].value, fields[i].key);
      }
    case _ =>
  }

  /** JSON metadata: redaction is idempotent and leaves nothing to hide. */
  lemma JsonRedaction(p: Patterns, v: Value, key: string)
    requires Usual(p) && IsJson(v)
    ensures Redact(p, Redact(p, v, key), key) == Redact(p, v, key)
    ensures Clean(p, Redact(p, v, key), key)
  {
    JsonHasNoNames(p, v, key);
    RedactedIsClean(p, v, key);
    RedactIdempotent(p, v, key);
  }

  // ----- errors -----

  /** The value with every error written out as the object {name, message, cause}. */
  function Recorded(v: Value): Value {
    match v
    case Arr(items) => Arr(seq(|items|, i requires 0 <= i < |items| => Recorded(items[i])))
    case Obj(fields) => Obj(seq(|fields|, i requires 0 <= i < |fields| => RecordedEntry(fields[i])))
    case Failure(name, message, cause) =>
      Obj([Entry("name", Str(name)), Entry("message", Str(message)),
           Entry("cause", if cause.Some? then Recorded(cause.value) else Scalar("undefined"))])
    case _ => v
  }

  function RecordedEntry(e: Entry): Entry {
    Entry(e.key, Recorded(e.value))
  }

  /** An error is redacted like the object of its name, message and cause, except that
      its name is not looked at: the two agree exactly where the names may be shown. */
  lemma {:induction false} ErrorsRedactAsRecords(p: Patterns, v: Value, key: string)
    requires Usual(p)
    ensures Redact(p, v, key) == Redact(p, Recorded(v), key) <==> NamesShowable(p, v, key)
    decreases v
  {
    if !p.sensitive(key) {
      match v
      case Arr(items) =>
        forall i | 0 <= i < |items|
          ensures Redact(p, v, key).items[i] == Redact(p, Recorded(v), key).items[i] <==>
            NamesShowable(p, items[i], key)
        {
          ErrorsRedactAsRecords(p, items[i], key);
        }
      case Obj(fields) =>
        forall i | 0 <= i < |fields|
          ensures Redact(p, v, key).fields[i] == Redact(p, Recorded(v), key).fields[i] <==>
            EntryNamesShowable(p, fields[i])
        {
          ErrorsRedactAsRecords(p, fields[i].value, fields[i].key);
          assert Redact(p, v, key).fields[i] == RedactEntry(p, fields[i]);
          assert Redact(p, Recorded(v), key).fields[i] == RedactEntry(p, RecordedEntry(fields[i]));
        }
      case Failure(name, message, cause) =>
        if cause.Some? { ErrorsRedactAsRecords(p, cause.value, "cause"); }
        FailureAsRecord(p, v, key);
      case _ =>
    }
  }

  lemma TextAlone(p: Patterns, s: string, key: string)
    requires !p.sensitive(key)
    ensures Redact(p, Str(s), key) == if Showable(p, s) then Str(s) else Masked()
  {}

  lemma FailureAsRecord(p: Patterns, v: Value, key: string)
    requires Usual(p) && v.Failure? && !p.sensitive(key)
    ensures Redact(p, v, key) == Redact(p, Recorded(v), key) <==>
      Showable(p, v.name) &&
      (v.cause.Some? ==> Redact(p, v.cause.value, "cause") == Redact(p, Recorded(v.cause.value), "cause"))
  {
    TextAlone(p, v.name, "name");
    TextAlone(p, v.message, "message");
    assert v.name == Redacted ==> Showable(p, v.name);
    var cause := if v.cause.Some? then Redact(p, v.cause.value, "cause") else Scalar(Undefined);
    var written := if v.cause.Some? then Redact(p, Recorded(v.cause.value), "cause") else Scalar(Undefined);
    var message := Redact(p, Str(v.message), "message");
    FailureRedacted(p, v, key);
    RecordRedacted(p, Recorded(v).fields, key);
    SameRecord(Str(v.name), Redact(p, Str(v.name), "name"), message, cause, written);
  }

  lemma FailureRedacted(p: Patterns, v: Value, key: string)
    requires Usual(p) && v.Failure? && !p.sensitive(key)
    ensures Redact(p, v, key) == Obj([
      Entry("name", Str(v.name)), Entry("message", Redact(p, Str(v.message), "message")),
      Entry("cause", if v.cause.Some? then Redact(p, v.cause.value, "cause") else Scalar(Undefined))])
  {
    TextAlone(p, v.message, "message");
  }

  lemma RecordRedacted(p: Patterns, fields: seq<Entry>, key: string)
    requires |fields| == 3 && !p.sensitive(key)
    ensures Redact(p, Obj(fields), key) ==
      Obj([RedactEntry(p, fields[0]), RedactEntry(p, fields[1]), RedactEntry(p, fields[2])])
  {
    var out := Redact(p, Obj(fields), key).fields;
    assert out == [out[0], out[1], out[2]];
  }

  lemma SameRecord(a: Value, b: Value, message: Value, c: Value, d: Value)
    ensures a == b && c == d <==>
      Obj([Entry("name", a), Entry("message", message), Entry("cause", c)])
      == Obj([Entry("name", b), Entry("message", message), Entry("cause", d)])
  {
    var x := [Entry("name", a), Entry("message", message), Entry("cause", c)];
    var y := [Entry("name", b), Entry("message", message), Entry("cause", d)];
    assert x == y ==> x[0] == y[0] && x[2] == y[2];
  }

  // ----- what stays where -----

  /** A place in a value: the value there and the key it stands under. */
  datatype Place = Place(value: Value, key: string)

  function Children(v: Value, key: string): seq<Place> {
    match v
    case Arr(items) => seq(|items|, i requires 0 <= i < |items| => Place(items[i], key))
    case Obj(fields) => seq(|fields|, i requires 0 <= i < |fields| => Place(fields[i].value, fields[i].key))
    case _ => []
  }

  function Lookup(at: Place, path: seq<nat>): Option<Place>
    decreases |path|
  {
    if path == [] then Some(at)
    else
      var children := Children(at.value, at.key);
      if path[0] < |children| then Lookup(children[path[0]], path[1..]) else None
  }

  /** A place on the way to the end of the path stands under a sensitive key. */
  predicate Masks(p: Patterns, at: Place, path: seq<nat>)
    decreases |path|
  {
    path != [] &&
      (p.sensitive(at.key)
       || (path[0] < |Children(at.value, at.key)| && Masks(p, Children(at.value, at.key)[path[0]], path[1..])))
  }

  function RedactPlace(p: Patterns, at: Place): Place {
    Place(Redact(p, at.value, at.key), at.key)
  }

  /** Place by place: what was at a path is still there under the same key, redacted,
      unless a sensitive key above it replaced the whole subtree; no place is added. */
  lemma {:induction false} RedactedPlaces(p: Patterns, at: Place, path: seq<nat>)
    requires IsJson(at.value)
    ensures Lookup(RedactPlace(p, at), path) ==
      if Masks(p, at, path) then None
      else match Lookup(at, path) case None => None case Some(place) => Some(RedactPlace(p, place))
    decreases |path|
  {
    if path != [] && !p.sensitive(at.key) {
      var before := Children(at.value, at.key);
      var after := Children(Redact(p, at.value, at.key), at.key);
      assert |after| == |before|;
      if path[0] < |before| {
        if at.value.Obj? {
          assert Redact(p, at.value, at.key).fields[path[0]] == RedactEntry(p, at.value.fields[path[0]]);
        }
        assert after[path[0]] == RedactPlace(p, before[path[0]]);
        assert IsJson(before[path[0]].value) by {
          if at.value.Obj? { assert IsJsonEntry(at.value.fields[path[0]]); }
        }
        RedactedPlaces(p, before[path[0]], path[1..]);
      }
    }
  }

  function Keys(fields: seq<Entry>): seq<string> {
    seq(|fields|, i requires 0 <= i < |fields| => fields[i].key)
  }

  /** Keys and array lengths survive outside masked values. */
  lemma ShapeKept(p: Patterns, at: Place, path: seq<nat>)
    requires IsJson(at.value) && Lookup(at, path).Some? && !Masks(p, at, path)
    requires !p.sensitive(Lookup(at, path).value.key)
    ensures Lookup(RedactPlace(p, at), path).Some?
    ensures var was, now := Lookup(at, path).value, Lookup(RedactPlace(p, at), path).value;
      && now.key == was.key
      && (was.value.Arr? ==> now.value.Arr? && |now.value.items| == |was.value.items|)
      && (was.value.Obj? ==> now.value.Obj? && Keys(now.value.fields) == Keys(was.value.fields))
  {
    RedactedPlaces(p, at, path);
    var was := Lookup(at, path).value;
    if was.value.Obj? {
      var fields := was.value.fields;
      forall i | 0 <= i < |fields|
        ensures Redact(p, was.value, was.key).fields[i].key == fields[i].key
      {
        assert Redact(p, was.value, was.key).fields[i] == RedactEntry(p, fields[i]);
      }
    }
  }

  lemma {:induction false} CleanPlaces(p: Patterns, at: Place, path: seq<nat>)
    requires Clean(p, at.value, at.key) && Lookup(at, path).Some?
    ensures var place := Lookup(at, path).value; Clean(p, place.value, place.key)
    decreases |path|
  {
    if path != [] {
      if at.value.Obj? { assert CleanEntry(p, at.value.fields[path[0]]); }
      CleanPlaces(p, Children(at.value, at.key)[path[0]], path[1..]);
    }
  }

  /** No forbidden text other than a UUID and no value under a sensitive key is left
      anywhere in redacted metadata. */
  lemma NothingLeaks(p: Patterns, v: Value, key: string, path: seq<nat>)
    requires Usual(p) && IsJson(v)
    requires Lookup(Place(Redact(p, v, key), key), path).Some?
    ensures var place := Lookup(Place(Redact(p, v, key), key), path).value;
      && (p.sensitive(place.key) ==> place.value == Str("[REDACTED]"))
      && (place.value.Str? ==> Showable(p, place.value.chars))
  {
    JsonRedaction(p, v, key);
    CleanPlaces(p, Place(Redact(p, v, key), key), path);
  }
}
