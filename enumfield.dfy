/**
 * A model field that stores a member of a Python `Enum` as the member's
 * string value (`jasmin_django_utils/enumfield.py`), and the form-field
 * mixin that lets a live member and its stored string stand for each other.
 *
 * An enum is a name and its members in definition order; a member is a name
 * and a string value. The members of a plain `Enum` are always true, and a
 * member is equal only to itself.
 */
module EnumField {
  import opened Results

  datatype Member = Member(name: string, value: string)

  /** A Python `Enum` class whose values are strings. */
  datatype Enum = Enum(name: string, members: seq<Member>)

  /** An `Enum` class as Python allows it: no two members share a name or a value. */
  predicate WellFormed(e: Enum) {
    forall i, j :: 0 <= i < j < |e.members| ==>
      e.members[i].name != e.members[j].name && e.members[i].value != e.members[j].value
  }

  /** A Python value that reaches the field: `None`, a string, or an enum member. */
  datatype FieldValue = Null | Str(s: string) | EnumMember(m: Member)

  /** Python truth: `None` and `''` are false, a plain enum member is true. */
  predicate Truthy(v: FieldValue) {
    match v
    case Null => false
    case Str(s) => s != ""
    case EnumMember(_) => true
  }

  /** `isinstance(v, enum)` */
  predicate IsInstance(e: Enum, v: FieldValue) {
    v.EnumMember? && v.m in e.members
  }

  /** The first member whose value is `s`. */
  function FindByValue(members: seq<Member>, s: string): (r: Option<Member>)
    ensures r.Some? ==> r.value in members && r.value.value == s
    ensures r.None? ==> forall m :: m in members ==> m.value != s
  {
    if members == [] then None
    else if members[0].value == s then Some(members[0])
    else FindByValue(members[1..], s)
  }

  /** The message of the ValueError `Enum(v)` raises: `'x' is not a valid Color`. */
  function NotValidMessage(e: Enum, repr: string): string {
    repr + " is not a valid " + e.name
  }

  function Repr(v: FieldValue): string {
    match v
    case Null => "None"
    case Str(s) => "'" + s + "'"
    case EnumMember(m) => "<" + m.name + ": '" + m.value + "'>"
  }

  /** `enum(v)`: a member is itself, a string finds the member with that value. */
  function Coerce(e: Enum, v: FieldValue): (r: Result<Member>)
    ensures r.Ok? ==> r.value in e.members
    ensures IsInstance(e, v) ==> r == Ok(v.m)
    ensures v.Str? ==> (r.Ok? <==> exists m :: m in e.members && m.value == v.s)
    ensures v.Str? && r.Ok? ==> r.value.value == v.s
    ensures v.Null? ==> r.Err?
    ensures r.Err? ==> r.error.ValueError?
  {
    match v
    case EnumMember(m) =>
      if m in e.members then Ok(m) else Err(ValueError(NotValidMessage(e, Repr(v))))
    case Str(s) =>
      (match FindByValue(e.members, s)
       case Some(m) => Ok(m)
       case None => Err(ValueError(NotValidMessage(e, Repr(v)))))
    case Null => Err(ValueError(NotValidMessage(e, Repr(v))))
  }

  // ---------------------------------------------------------------------
  // EnumField
  // ---------------------------------------------------------------------

  /**
   * The field as `EnumField.__init__` leaves it. `default` is `None` when no
   * default was given (Django's NOT_PROVIDED) and `Some(Null)` for `default=None`.
   */
  datatype Field = Field(
    enum: Enum,
    maxLength: nat,
    choices: seq<(FieldValue, string)>,
    default: Option<FieldValue>,
    validators: seq<string>)

  /** `max(len(e.value) for e in enum)`, which fails on an enum without members. */
  function MaxLength(e: Enum): (r: Result<nat>)
    ensures r.Ok? <==> e.members != []
    ensures r.Ok? ==> forall m :: m in e.members ==> |m.value| <= r.value
    ensures r.Ok? ==> exists m :: m in e.members && |m.value| == r.value
    ensures r.Err? ==> r.error.ValueError?
    decreases |e.members|
  {
    if e.members == [] then Err(ValueError("max() arg is an empty sequence"))
    else if |e.members| == 1 then Ok(|e.members[0].value|)
    else
      var rest := MaxLength(Enum(e.name, e.members[1..])).value;
      assert forall m :: m in e.members[1..] ==> m in e.members;
      if |e.members[0].value| >= rest then Ok(|e.members[0].value|) else Ok(rest)
  }

  /** `[(e, e.name) for e in enum]`: every member with its name, in order. */
  function Choices(e: Enum): (r: seq<(FieldValue, string)>)
    ensures |r| == |e.members|
    ensures forall i :: 0 <= i < |r| ==> r[i] == (EnumMember(e.members[i]), e.members[i].name)
    decreases |e.members|
  {
    if e.members == [] then []
    else [(EnumMember(e.members[0]), e.members[0].name)] + Choices(Enum(e.name, e.members[1..]))
  }

  /**
   * `EnumField.__init__`: the width is the longest value, the choices are the
   * members, and no validators are kept.
   */
  function NewField(e: Enum, default: Option<FieldValue>): (r: Result<Field>)
    ensures r.Ok? <==> e.members != []
    ensures r.Ok? ==> r.value.enum == e && r.value.default == default && r.value.validators == []
    ensures r.Ok? ==> forall m :: m in e.members ==> |m.value| <= r.value.maxLength
    ensures r.Ok? ==> r.value.maxLength == MaxLength(e).value
    ensures r.Ok? ==> exists m :: m in e.members && |m.value| == r.value.maxLength
    ensures r.Ok? ==> r.value.choices == Choices(e)
  {
    var width :- MaxLength(e);
    Ok(Field(e, width, Choices(e), default, []))
  }

  /** A constructor argument as a migration records it. */
  datatype Arg = EnumClass(e: Enum) | OtherArg(repr: string)

  datatype Deconstruction = Deconstruction(name: string, path: string, args: seq<Arg>, kwargs: map<string, Arg>)

  /**
   * `EnumField.deconstruct` over what `CharField.deconstruct` returned: the
   * enum goes first among the arguments, and `max_length` and `choices` are
   * dropped because the enum determines them (a missing one is a KeyError).
   */
  function Deconstruct(f: Field, base: Deconstruction): (r: Result<Deconstruction>)
    ensures r.Ok? <==> "max_length" in base.kwargs && "choices" in base.kwargs
    ensures "max_length" !in base.kwargs ==> r == Err(KeyError("max_length"))
    ensures "max_length" in base.kwargs && "choices" !in base.kwargs ==> r == Err(KeyError("choices"))
    ensures r.Ok? ==> r.value.name == base.name && r.value.path == base.path
    ensures r.Ok? ==> r.value.args == [EnumClass(f.enum)] + base.args
    ensures r.Ok? ==> r.value.kwargs.Keys == base.kwargs.Keys - {"max_length", "choices"}
    ensures r.Ok? ==> forall k :: k in r.value.kwargs ==> r.value.kwargs[k] == base.kwargs[k]
  {
    if "max_length" !in base.kwargs then Err(KeyError("max_length"))
    else if "choices" !in base.kwargs then Err(KeyError("choices"))
    else Ok(Deconstruction(base.name, base.path, [EnumClass(f.enum)] + base.args,
                           base.kwargs - {"max_length", "choices"}))
  }

  /**
   * What `deconstruct` drops can be rebuilt: constructing a field again from
   * the enum it records gives back the same field.
   */
  lemma DeconstructRebuilds(e: Enum, default: Option<FieldValue>, base: Deconstruction)
    requires NewField(e, default).Ok?
    requires Deconstruct(NewField(e, default).value, base).Ok?
    ensures Deconstruct(NewField(e, default).value, base).value.args[0].EnumClass?
    ensures NewField(Deconstruct(NewField(e, default).value, base).value.args[0].e, default)
         == NewField(e, default)
  {
  }

  /**
   * `EnumField.get_default`: `None` stays `None`, a member stays itself,
   * anything else goes through the enum; without a default, the framework's
   * default (`baseDefault`) is used.
   */
  function GetDefault(f: Field, baseDefault: FieldValue): (r: Result<FieldValue>)
    ensures f.default.None? ==> r == Ok(baseDefault)
    ensures f.default.Some? && f.default.value.Null? ==> r == Ok(Null)
    ensures f.default.Some? && IsInstance(f.enum, f.default.value) ==> r == Ok(f.default.value)
    ensures f.default.Some? && !f.default.value.Null? && r.Ok? ==> IsInstance(f.enum, r.value)
    ensures f.default.Some? && f.default.value.Str? ==>
              (r.Ok? <==> exists m :: m in f.enum.members && m.value == f.default.value.s)
    ensures f.default.Some? && f.default.value.Str? && r.Ok? ==>
              r.value.EnumMember? && r.value.m in f.enum.members && r.value.m.value == f.default.value.s
    ensures f.default.Some? && f.default.value.EnumMember? && !IsInstance(f.enum, f.default.value) ==>
              r.Err? && r.error.ValueError?
  {
    match f.default
    case None => Ok(baseDefault)
    case Some(d) =>
      if d.Null? then Ok(Null)
      else if IsInstance(f.enum, d) then Ok(d)
      else
        var m :- Coerce(f.enum, d);
        Ok(EnumMember(m))
  }

  const NoValueAttribute := "'str' object has no attribute 'value'"

  /** `i.value if i else i` on the key of one choice. */
  function ChoiceKey(key: FieldValue): Result<FieldValue> {
    if !Truthy(key) then Ok(key)
    else match key
      case EnumMember(m) => Ok(Str(m.value))
      case _ => Err(AttributeError(NoValueAttribute))
  }

  /**
   * `EnumField.get_choices` over the framework's list `base`: every true key
   * is replaced by its `.value`, blank keys and all labels are kept.
   */
  function GetChoices(base: seq<(FieldValue, string)>): (r: Result<seq<(FieldValue, string)>>)
    ensures r.Ok? <==> forall i :: 0 <= i < |base| ==> !(base[i].0.Str? && Truthy(base[i].0))
    ensures r.Err? ==> r.error == AttributeError(NoValueAttribute)
    ensures r.Ok? ==> |r.value| == |base|
    ensures r.Ok? ==> forall i :: 0 <= i < |base| ==> r.value[i].1 == base[i].1
    ensures r.Ok? ==> forall i :: 0 <= i < |base| && !Truthy(base[i].0) ==> r.value[i].0 == base[i].0
    ensures r.Ok? ==> forall i :: 0 <= i < |base| && base[i].0.EnumMember? ==>
                        r.value[i].0 == Str(base[i].0.m.value)
  {
    if base == [] then Ok([])
    else
      var key :- ChoiceKey(base[0].0);
      var rest :- GetChoices(base[1..]);
      Ok([(key, base[0].1)] + rest)
  }

  /**
   * The choices offered for a field: each member's stored value with its
   * name as the label, after an optional blank entry that is left as it is.
   */
  lemma {:induction false} ChoicesOffered(e: Enum, blank: seq<(FieldValue, string)>)
    requires forall i :: 0 <= i < |blank| ==> !Truthy(blank[i].0)
    ensures GetChoices(blank + Choices(e)).Ok?
    ensures GetChoices(blank + Choices(e)).value[..|blank|] == blank
    ensures forall i :: 0 <= i < |e.members| ==>
              GetChoices(blank + Choices(e)).value[|blank| + i] == (Str(e.members[i].value), e.members[i].name)
  {
    var base := blank + Choices(e);
    forall i | 0 <= i < |base|
      ensures !(base[i].0.Str? && Truthy(base[i].0))
    {
      if i >= |blank| {
        assert base[i] == Choices(e)[i - |blank|];
      }
    }
    var r := GetChoices(base).value;
    forall i | 0 <= i < |e.members|
      ensures r[|blank| + i] == (Str(e.members[i].value), e.members[i].name)
    {
      assert base[|blank| + i] == Choices(e)[i];
    }
  }

  /** `get_prep_value`: a member is stored as its value, a false value as `None`. */
  function GetPrepValue(v: FieldValue): (r: Result<Option<string>>)
    ensures !Truthy(v) ==> r == Ok(None)
    ensures v.EnumMember? ==> r == Ok(Some(v.m.value))
    ensures r.Err? <==> v.Str? && Truthy(v)
  {
    if !Truthy(v) then Ok(None)
    else match v
      case EnumMember(m) => Ok(Some(m.value))
      case _ => Err(AttributeError(NoValueAttribute))
  }

  /**
   * `value_to_string`, given the value the field holds on the object: the
   * same conversion as `get_prep_value`.
   */
  function ValueToString(held: FieldValue): (r: Result<Option<string>>)
    ensures r == GetPrepValue(held)
  {
    if held.EnumMember? then Ok(Some(held.m.value))
    else if Truthy(held) then Err(AttributeError(NoValueAttribute))
    else Ok(None)
  }

  /**
   * `to_python` (and `from_db_value`): a member of the enum is returned as it
   * is, a false value gives `None`, anything else is looked up in the enum.
   */
  function ToPython(e: Enum, v: FieldValue): (r: Result<Option<Member>>)
    ensures IsInstance(e, v) ==> r == Ok(Some(v.m))
    ensures !Truthy(v) ==> r == Ok(None)
    ensures r.Ok? && r.value.Some? ==> r.value.value in e.members
    ensures v.Str? && v.s != "" ==> (r.Err? <==> forall m :: m in e.members ==> m.value != v.s)
    ensures r.Err? ==> r.error.ValueError?
  {
    if IsInstance(e, v) then Ok(Some(v.m))
    else if Truthy(v) then
      var m :- Coerce(e, v);
      Ok(Some(m))
    else Ok(None)
  }

  /**
   * Storing a member and reading it back gives the same member, when its
   * value is not empty (an empty value is stored as `''` and read as `None`).
   */
  lemma RoundTrip(e: Enum, m: Member)
    requires WellFormed(e) && m in e.members && m.value != ""
    ensures GetPrepValue(EnumMember(m)) == Ok(Some(m.value))
    ensures ToPython(e, Str(m.value)) == Ok(Some(m))
  {
    var found := Coerce(e, Str(m.value)).value;
    var i, j :| 0 <= i < |e.members| && 0 <= j < |e.members| && e.members[i] == found && e.members[j] == m;
    assert i == j;
  }

  /** Reading a stored string back and storing it again gives the string. */
  lemma StoredStringRoundTrip(e: Enum, s: string)
    requires s != "" && ToPython(e, Str(s)).Ok?
    ensures ToPython(e, Str(s)).value.Some?
    ensures GetPrepValue(EnumMember(ToPython(e, Str(s)).value.value)) == Ok(Some(s))
  {
  }

  /** A member whose value is empty does not survive the round trip. */
  lemma EmptyValueLost(e: Enum, m: Member)
    requires m in e.members && m.value == ""
    ensures GetPrepValue(EnumMember(m)) == Ok(Some(""))
    ensures ToPython(e, Str("")) == Ok(None)
  {
  }

  // ---------------------------------------------------------------------
  // EnumChoiceFieldMixin
  // ---------------------------------------------------------------------

  /** `prepare_value`: the string a widget shows for a value. */
  function PrepareValue(v: FieldValue): (r: string)
    ensures v.Null? ==> r == ""
    ensures v.EnumMember? ==> r == v.m.value
    ensures v.Str? ==> r == v.s
  {
    match v
    case Null => ""
    case EnumMember(m) => m.value
    case Str(s) => s
  }

  /** A member and its stored string look the same in a widget. */
  lemma PrepareValueAgrees(m: Member)
    ensures PrepareValue(EnumMember(m)) == PrepareValue(Str(m.value))
  {
  }

  /** `str(v)`: a plain enum member prints as `Class.NAME`. */
  function StrOf(e: Enum, v: FieldValue): string {
    match v
    case Null => "None"
    case Str(s) => s
    case EnumMember(m) => e.name + "." + m.name
  }

  /**
   * `ChoiceField.valid_value` over string choice keys: the value equals a key,
   * or prints as one. A plain enum member equals no string.
   */
  predicate BaseValidValue(e: Enum, keys: seq<string>, v: FieldValue) {
    exists k :: k in keys && ((v.Str? && v.s == k) || StrOf(e, v) == k)
  }

  /**
   * `EnumChoiceFieldMixin.valid_value`: a member is tried by its value first,
   * then as it is; any other value only as it is.
   */
  function ValidValue(e: Enum, keys: seq<string>, v: FieldValue): (ok: bool)
    ensures v.EnumMember? ==> (ok <==> v.m.value in keys || e.name + "." + v.m.name in keys)
    ensures v.Str? ==> (ok <==> v.s in keys)
    ensures v.Null? ==> (ok <==> "None" in keys)
  {
    (v.EnumMember? && BaseValidValue(e, keys, Str(v.m.value))) || BaseValidValue(e, keys, v)
  }

  /**
   * A live member is valid exactly when its stored string is, unless a key
   * happens to be its printed form `Class.NAME`.
   */
  lemma ValidMemberIffValue(e: Enum, keys: seq<string>, m: Member)
    requires e.name + "." + m.name !in keys
    ensures ValidValue(e, keys, EnumMember(m)) <==> ValidValue(e, keys, Str(m.value))
  {
  }

  /** With the field's own choices as keys, every member of the enum is valid. */
  lemma MembersAreValid(e: Enum, keys: seq<string>, m: Member)
    requires m in e.members
    requires forall n :: n in e.members ==> n.value in keys
    ensures ValidValue(e, keys, EnumMember(m))
    ensures ValidValue(e, keys, Str(m.value))
  {
  }

  /** The two-member example: `A = "a"`, `B = "b"` offers `("a", "A")` and `("b", "B")`. */
  lemma TwoMemberChoices()
    ensures GetChoices(Choices(Enum("E", [Member("A", "a"), Member("B", "b")])))
         == Ok([(Str("a"), "A"), (Str("b"), "B")])
  {
    var e := Enum("E", [Member("A", "a"), Member("B", "b")]);
    ChoicesOffered(e, []);
    assert [] + Choices(e) == Choices(e);
    var r := GetChoices(Choices(e)).value;
    assert |r| == 2;
    assert r[0] == (Str("a"), "A") && r[1] == (Str("b"), "B");
    assert r == [(Str("a"), "A"), (Str("b"), "B")];
  }
}
