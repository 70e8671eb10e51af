/**
 * src/Validator.php, src/Validators/Required.php and src/Validators/Length.php:
 * discovering the validators declared on a class, running one against an
 * object, and the Length bounds check.
 */
module Validators {
  import opened Wrappers
  import opened Strings
  import opened ExpressionTree
  import opened Schema

  /** A validator instance with its `property` assigned. */
  datatype Validator = Validator(attribute: Marker, property: PropertyDecl)

  /** The attributes of one property whose class extends Validator, in source order. */
  function ValidatorsOf(p: PropertyDecl, markers: seq<Marker>): (r: seq<Validator>)
    ensures |r| <= |markers|
    ensures forall k :: 0 <= k < |r| ==> IsValidator(r[k].attribute) && r[k].attribute in markers && r[k].property == p
  {
    if |markers| == 0 then []
    else (if IsValidator(markers[0]) then [Validator(markers[0], p)] else []) + ValidatorsOf(p, markers[1..])
  }

  /** Validator::getAll(class): every validator attribute of every property, property by property. */
  function AllValidators(props: seq<PropertyDecl>): seq<Validator> {
    if |props| == 0 then [] else ValidatorsOf(props[0], props[0].markers) + AllValidators(props[1..])
  }

  lemma {:induction false} AllValidatorsAppend(a: seq<PropertyDecl>, b: seq<PropertyDecl>)
    ensures AllValidators(a + b) == AllValidators(a) + AllValidators(b)
  {
    if |a| == 0 {
      assert a + b == b;
    } else {
      assert (a + b)[0] == a[0];
      assert (a + b)[1..] == a[1..] + b;
      AllValidatorsAppend(a[1..], b);
    }
  }

  lemma {:induction false} ValidatorsOfAppend(p: PropertyDecl, a: seq<Marker>, b: seq<Marker>)
    ensures ValidatorsOf(p, a + b) == ValidatorsOf(p, a) + ValidatorsOf(p, b)
  {
    if |a| == 0 {
      assert a + b == b;
    } else {
      assert (a + b)[0] == a[0];
      assert (a + b)[1..] == a[1..] + b;
      ValidatorsOfAppend(p, a[1..], b);
    }
  }

  /** Every validator getAll yields is a Validator attribute of the property it is bound to. */
  lemma {:induction false} AllValidatorsSound(props: seq<PropertyDecl>)
    ensures forall k :: 0 <= k < |AllValidators(props)| ==>
              IsValidator(AllValidators(props)[k].attribute) && AllValidators(props)[k].property in props &&
              AllValidators(props)[k].attribute in AllValidators(props)[k].property.markers
  {
    if |props| > 0 {
      AllValidatorsSound(props[1..]);
      var head := ValidatorsOf(props[0], props[0].markers);
      forall k | 0 <= k < |AllValidators(props)|
        ensures IsValidator(AllValidators(props)[k].attribute) && AllValidators(props)[k].property in props &&
                AllValidators(props)[k].attribute in AllValidators(props)[k].property.markers
      {
        if k >= |head| {
          assert AllValidators(props)[k] == AllValidators(props[1..])[k - |head|];
        }
      }
    }
  }

  /** Several validators on one property are all kept, in source order. */
  lemma {:induction false} TwoRequiredOnOneProperty(p: PropertyDecl, m1: Message, m2: Message)
    requires p.markers == [RequiredMarker(m1), ColumnMarker, RequiredMarker(m2)]
    ensures AllValidators([p]) == [Validator(RequiredMarker(m1), p), Validator(RequiredMarker(m2), p)]
  {
    assert p.markers[1..] == [ColumnMarker, RequiredMarker(m2)];
    assert p.markers[1..][1..] == [RequiredMarker(m2)];
    var v1, v2 := Validator(RequiredMarker(m1), p), Validator(RequiredMarker(m2), p);
    assert ValidatorsOf(p, [RequiredMarker(m2)]) == [v2] + ValidatorsOf(p, []);
    assert ValidatorsOf(p, p.markers[1..]) == ValidatorsOf(p, [RequiredMarker(m2)]);
    assert ValidatorsOf(p, p.markers) == [v1] + ValidatorsOf(p, p.markers[1..]);
    assert AllValidators([p]) == ValidatorsOf(p, p.markers) + AllValidators([]);
  }

  lemma {:induction false} ValidatorsOfStep(p: PropertyDecl, markers: seq<Marker>, j: nat)
    requires j < |markers|
    ensures ValidatorsOf(p, markers[..j + 1]) ==
            ValidatorsOf(p, markers[..j]) + (if IsValidator(markers[j]) then [Validator(markers[j], p)] else [])
  {
    assert markers[..j + 1] == markers[..j] + [markers[j]];
    ValidatorsOfAppend(p, markers[..j], [markers[j]]);
  }

  lemma {:induction false} AllValidatorsStep(all: seq<PropertyDecl>, i: nat)
    requires i < |all|
    ensures AllValidators(all[..i + 1]) == AllValidators(all[..i]) + ValidatorsOf(all[i], all[i].markers)
  {
    assert all[..i + 1] == all[..i] + [all[i]];
    AllValidatorsAppend(all[..i], [all[i]]);
    assert AllValidators([all[i]]) == ValidatorsOf(all[i], all[i].markers) + AllValidators([]);
  }

  /** The nested loop of getAll. */
  method GetAll(cls: ClassSchema) returns (validators: seq<Validator>)
    ensures validators == AllValidators(cls.properties)
  {
    validators := [];
    var i := 0;
    while i < |cls.properties|
      invariant 0 <= i <= |cls.properties|
      invariant validators == AllValidators(cls.properties[..i])
    {
      var p := cls.properties[i];
      var found: seq<Validator> := [];
      var j := 0;
      while j < |p.markers|
        invariant 0 <= j <= |p.markers|
        invariant found == ValidatorsOf(p, p.markers[..j])
      {
        if IsValidator(p.markers[j]) {
          found := found + [Validator(p.markers[j], p)];
        }
        ValidatorsOfStep(p, p.markers, j);
        j := j + 1;
      }
      assert p.markers[..j] == p.markers;
      validators := validators + found;
      AllValidatorsStep(cls.properties, i);
      i := i + 1;
    }
    assert cls.properties[..i] == cls.properties;
  }

  /** PHP's empty() on a value: null, false, 0, "", "0" and the empty array. */
  predicate PhpEmpty(v: Mixed) {
    match v
    case Null => true
    case Bool(b) => !b
    case Int(i) => i == 0
    case Str(s) => !Truthy(s)
    case List(items) => |items| == 0
    case _ => false   // objects and resources are never empty
  }

  /** The six values the source treats as missing, and nothing else among strings and ints. */
  lemma {:induction false} PhpEmptyValues(s: string, i: int)
    ensures PhpEmpty(Null) && PhpEmpty(Bool(false)) && PhpEmpty(Int(0))
    ensures PhpEmpty(Str("")) && PhpEmpty(Str("0")) && PhpEmpty(List([]))
    ensures PhpEmpty(Str(s)) <==> s == "" || s == "0"
    ensures PhpEmpty(Int(i)) <==> i == 0
    ensures !PhpEmpty(Bool(true)) && !PhpEmpty(Str(" ")) && !PhpEmpty(Str("00"))
  {
  }

  /**
   * Required::test(object): an uninitialized property passes exactly when the
   * object is already stored; an initialized one when its value is not empty.
   */
  function RequiredTest(isNew: bool, value: Option<Mixed>): (r: bool)
    ensures value.None? ==> (r <==> !isNew)
    ensures value.Some? ==> (r <==> !PhpEmpty(value.value))
  {
    match value
    case None => !isNew
    case Some(v) => !PhpEmpty(v)
  }

  /** The stored context never matters: the test reads only the flag and the value. */
  lemma {:induction false} RequiredIgnoresNewnessWhenSet(v: Mixed)
    ensures RequiredTest(true, Some(v)) == RequiredTest(false, Some(v))
  {
  }

  /** getMessage(): a callable's result, else the string. */
  function MessageText(m: Message): string {
    match m
    case TextMessage(t) => t
    case CallableMessage(r) => r
  }

  /** Required::getDefaultMessage() */
  function DefaultMessage(property: string): string {
    property + " is required"
  }

  /** The value the bound property holds, if initialized. */
  function PropertyValue(values: map<string, Mixed>, name: string): Option<Mixed> {
    if name in values then Some(values[name]) else None
  }

  /**
   * Validator::perform(object) for a Required validator: nothing when the test
   * passes; otherwise a Validation exception carrying the message when it is
   * truthy, else the default message.
   */
  function Perform(v: Validator, isNew: bool, values: map<string, Mixed>): (r: Outcome)
    requires IsValidator(v.attribute)
    ensures r.Pass? <==> RequiredTest(isNew, PropertyValue(values, v.property.name))
    ensures r.Fail? ==> r.error.kind == ValidationException
    ensures r.Fail? && Truthy(MessageText(v.attribute.message)) ==> r.error.message == MessageText(v.attribute.message)
    ensures r.Fail? && !Truthy(MessageText(v.attribute.message)) ==> r.error.message == v.property.name + " is required"
  {
    if RequiredTest(isNew, PropertyValue(values, v.property.name)) then Pass
    else
      var m := MessageText(v.attribute.message);
      Fail(Error(ValidationException, if Truthy(m) then m else DefaultMessage(v.property.name)))
  }

  /** A message of "0" is falsy too, so the default replaces it. */
  lemma {:induction false} ZeroMessageFallsBack(p: PropertyDecl)
    ensures Perform(Validator(RequiredMarker(TextMessage("0")), p), true, map[]) ==
            Fail(Error(ValidationException, p.name + " is required"))
  {
  }

  // ---------------------------------------------------------------------------
  // Length

  /** Length's bounds check on strlen(value); a null bound is no bound, both bounds inclusive. */
  predicate OutOfRange(min: Option<int>, max: Option<int>, value: string) {
    (min.Some? && |value| < min.value) || (max.Some? && |value| > max.value)
  }

  lemma {:induction false} LengthBoundsInclusive(min: int, max: int, value: string)
    ensures |value| == min ==> !OutOfRange(Some(min), None, value)
    ensures |value| == max ==> !OutOfRange(None, Some(max), value)
    ensures min <= |value| <= max <==> !OutOfRange(Some(min), Some(max), value)
    ensures !OutOfRange(None, None, value)
  {
  }

  /**
   * Length.php imports `ActiveRecord\Exception\Validation`, while the library's
   * exception class is `Gforces\ActiveRecord\Exception\Validation`.
   */
  const LengthExceptionClass := "ActiveRecord\\Exception\\Validation"

  /** PHP's Error for instantiating a class that no loaded file declares. */
  function ClassNotFound(cls: string): Error {
    Error(EngineError, "Class \"" + cls + "\" not found")
  }

  /**
   * Length::perform(value) as written: an in-range value passes; for an
   * out-of-range one, `new Validation(...)` names a class that cannot be
   * resolved, so PHP raises a class-not-found Error. The Validation it would
   * build is assigned to a local and never thrown anyway.
   */
  function LengthPerformAsWritten(min: Option<int>, max: Option<int>, message: string, value: string): (r: Outcome)
    ensures r.Pass? <==> !OutOfRange(min, max, value)
    ensures r.Fail? ==> r.error.kind == EngineError && r.error != Error(ValidationException, message)
  {
    if OutOfRange(min, max, value) then Fail(ClassNotFound(LengthExceptionClass)) else Pass
  }

  /** "ab" under a minimum of 3 fails as written, but with an engine Error rather than the Validation carrying the message. */
  lemma {:induction false} LengthReportsWrongError(message: string)
    ensures OutOfRange(Some(3), None, "ab")
    ensures LengthPerformAsWritten(Some(3), None, message, "ab") == Fail(ClassNotFound(LengthExceptionClass))
    ensures LengthPerformAsWritten(Some(3), None, message, "ab") != LengthPerform(Some(3), None, message, "ab")
  {
  }

  /** Length::perform(value) as evidently intended: an out-of-range value raises Validation with the message. */
  function LengthPerform(min: Option<int>, max: Option<int>, message: string, value: string): (r: Outcome)
    ensures r.Fail? <==> OutOfRange(min, max, value)
    ensures r.Fail? ==> r.error == Error(ValidationException, message)
  {
    if OutOfRange(min, max, value) then Fail(Error(ValidationException, message)) else Pass
  }

  /** The two revisions pass on the same values; where they fail, the errors differ. */
  lemma {:induction false} LengthRevisionsAgreeOnPass(min: Option<int>, max: Option<int>, message: string, value: string)
    ensures LengthPerformAsWritten(min, max, message, value).Pass? <==> LengthPerform(min, max, message, value).Pass?
    ensures OutOfRange(min, max, value) ==> LengthPerformAsWritten(min, max, message, value) != LengthPerform(min, max, message, value)
  {
  }

  /** Length is not a Validator subclass, so a class's validators never include it. */
  lemma {:induction false} LengthNeverDiscovered(props: seq<PropertyDecl>)
    ensures forall k :: 0 <= k < |AllValidators(props)| ==> !AllValidators(props)[k].attribute.LengthMarker?
  {
    AllValidatorsSound(props);
  }
}
