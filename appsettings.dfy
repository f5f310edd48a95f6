/**
 * Typed settings for an application (`jasmin_django_utils/appsettings.py`).
 *
 * A `SettingsObject` holds a name and the user's overrides. A `Setting`
 * descriptor, bound to an attribute name, resolves its value from the
 * overrides, then from its default, and otherwise fails. Two refinements
 * post-process the resolved value: `ImportStringSetting` imports the dotted
 * path it names, and `ObjectFactorySetting` calls a factory with the
 * lower-cased `PARAMS` and turns the factory's argument errors into
 * configuration errors by reading the error message.
 */
module AppSettings {
  import opened Results
  import opened Text

  /** The Python values a setting can hold. A dictionary keeps its insertion order. */
  datatype Value =
    | NoneValue
    | Str(s: string)
    | Int(i: int)
    | Dict(items: seq<(string, Value)>)
    /** Any other object (a class, a function, an instance), by identity */
    | Object(id: nat)

  /** A named collection of settings backed by the user's overrides. */
  datatype SettingsObject = SettingsObject(name: string, userSettings: map<string, Value>)

  /** The `instance` argument that `__get__` receives. */
  datatype Instance =
    /** Access through the class: `instance` is `None` */
    | NoInstance
    /** An object that is not a `SettingsObject`, with its truth value */
    | Foreign(truthy: bool)
    /** A `SettingsObject`; it has no `__bool__`, so it is always true */
    | Owner(obj: SettingsObject)

  /**
   * The default of a setting: the `NO_DEFAULT` sentinel, a plain value, or a
   * callable that receives the owning settings object (and may raise).
   */
  datatype Default =
    | NoDefault
    | Literal(value: Value)
    | Computed(compute: SettingsObject -> Result<Value>)

  /** A `Setting` descriptor after `__set_name__` has given it its attribute name. */
  datatype Setting = Setting(name: string, default: Default)

  /** The runtime services the descriptors call but do not define. */
  datatype Runtime = Runtime(
    /** `import_string`: the object a dotted path names, or the error it raises */
    importString: Value -> Result<Value>,
    /** Calling an object with keyword arguments */
    call: (Value, seq<(string, Value)>) -> Result<Value>)

  const ClassAccessMessage := "Settings cannot be accessed as class attributes"
  const ForeignOwnerMessage := "Settings should belong to a SettingsObject"
  const ReadOnlyMessage := "Settings are read-only"

  function RequiredMessage(objName: string, settingName: string): string {
    "Required setting: " + objName + "." + settingName
  }

  // ---------------------------------------------------------------------
  // Setting
  // ---------------------------------------------------------------------

  /** `Setting._get_default`: the default, called on the owner when it is callable. */
  function GetDefault(obj: SettingsObject, s: Setting): (r: Result<Value>)
    ensures s.default.NoDefault? ==> r == Err(ImproperlyConfigured(RequiredMessage(obj.name, s.name)))
    ensures s.default.Literal? ==> r == Ok(s.default.value)
    ensures s.default.Computed? ==> r == s.default.compute(obj)
  {
    match s.default
    case NoDefault => Err(ImproperlyConfigured(RequiredMessage(obj.name, s.name)))
    case Literal(v) => Ok(v)
    case Computed(f) => f(obj)
  }

  /** `Setting.__get__`: resolve by precedence, override first, then the default. */
  function Get(instance: Instance, s: Setting): (r: Result<Value>)
    ensures r.Ok? ==> instance.Owner?
    ensures !instance.Owner? ==> r.Err? && r.error.TypeError?
    ensures instance.Owner? && s.name in instance.obj.userSettings ==>
              r == Ok(instance.obj.userSettings[s.name])
    ensures instance.Owner? && s.name !in instance.obj.userSettings ==>
              r == GetDefault(instance.obj, s)
  {
    match instance
    case NoInstance => Err(TypeError(ClassAccessMessage))
    case Foreign(truthy) =>
      if !truthy then Err(TypeError(ClassAccessMessage)) else Err(TypeError(ForeignOwnerMessage))
    case Owner(obj) =>
      if s.name in obj.userSettings then Ok(obj.userSettings[s.name]) else GetDefault(obj, s)
  }

  /** `Setting.__set__`: every assignment fails, so no value is ever stored. */
  function Assign(instance: Instance, s: Setting, v: Value): (r: Result<()>)
    ensures r == Err(AttributeError(ReadOnlyMessage))
  {
    Err(AttributeError(ReadOnlyMessage))
  }

  /** An override is returned whatever the default is. */
  lemma OverrideWins(obj: SettingsObject, name: string, d: Default)
    requires name in obj.userSettings
    ensures Get(Owner(obj), Setting(name, d)) == Ok(obj.userSettings[name])
  {
  }

  /**
   * A required setting with no override fails with a configuration error
   * whose message names both the settings object and the setting.
   */
  lemma RequiredSettingNamed(obj: SettingsObject, s: Setting)
    requires s.name !in obj.userSettings && s.default.NoDefault?
    ensures Get(Owner(obj), s).Err?
    ensures Get(Owner(obj), s).error.ImproperlyConfigured?
    ensures Contains(Get(Owner(obj), s).error.msg, obj.name)
    ensures Contains(Get(Owner(obj), s).error.msg, s.name)
  {
    ContainsInside("Required setting: ", obj.name, "." + s.name);
    assert "Required setting: " + obj.name + ("." + s.name)
        == RequiredMessage(obj.name, s.name);
    ContainsInside("Required setting: " + obj.name + ".", s.name, "");
    assert "Required setting: " + obj.name + "." + s.name + ""
        == RequiredMessage(obj.name, s.name);
  }

  // ---------------------------------------------------------------------
  // ImportStringSetting
  // ---------------------------------------------------------------------

  /**
   * `ImportStringSetting.__get__`: import what the resolved value names. An
   * override is imported; when resolution fails, its error comes out and
   * nothing is imported.
   */
  function ImportStringGet(rt: Runtime, instance: Instance, s: Setting): (r: Result<Value>)
    ensures Get(instance, s).Err? ==> r == Get(instance, s)
    ensures Get(instance, s).Ok? ==> r == rt.importString(Get(instance, s).value)
    ensures instance.Owner? && s.name in instance.obj.userSettings ==>
              r == rt.importString(instance.obj.userSettings[s.name])
  {
    var path :- Get(instance, s);
    rt.importString(path)
  }

  // ---------------------------------------------------------------------
  // Dictionaries as ordered lists of entries
  // ---------------------------------------------------------------------

  function KeysOf(d: seq<(string, Value)>): (ks: seq<string>)
    ensures |ks| == |d| && forall i :: 0 <= i < |d| ==> ks[i] == d[i].0
  {
    if d == [] then [] else [d[0].0] + KeysOf(d[1..])
  }

  predicate Distinct(ks: seq<string>) {
    forall i, j :: 0 <= i < j < |ks| ==> ks[i] != ks[j]
  }

  /** `d.get(k)` */
  function Lookup(d: seq<(string, Value)>, k: string): (r: Option<Value>)
    ensures r.Some? <==> k in KeysOf(d)
  {
    if d == [] then None else if d[0].0 == k then Some(d[0].1) else Lookup(d[1..], k)
  }

  /** `d[k] = v`: an existing key keeps its place, a new key goes last. */
  function Put(d: seq<(string, Value)>, k: string, v: Value): (r: seq<(string, Value)>)
    ensures KeysOf(r) == if k in KeysOf(d) then KeysOf(d) else KeysOf(d) + [k]
    ensures Lookup(r, k) == Some(v)
    ensures forall k' :: k' != k ==> Lookup(r, k') == Lookup(d, k')
  {
    if d == [] then [(k, v)]
    else if d[0].0 == k then [(k, v)] + d[1..]
    else [d[0]] + Put(d[1..], k, v)
  }

  /** `value[key]` on a resolved setting value. */
  function Subscript(value: Value, key: string): (r: Result<Value>)
    ensures r.Ok? <==> value.Dict? && key in KeysOf(value.items)
    ensures r.Ok? ==> Some(r.value) == Lookup(value.items, key)
    ensures value.Dict? && r.Err? ==> r == Err(KeyError(key))
    ensures !value.Dict? ==> r.Err? && r.error.TypeError?
  {
    match value
    case Dict(items) =>
      (match Lookup(items, key)
       case Some(v) => Ok(v)
       case None => Err(KeyError(key)))
    case _ => Err(TypeError("object is not subscriptable"))
  }

  /** `value.items()` */
  function Items(value: Value): (r: Result<seq<(string, Value)>>)
    ensures r.Ok? <==> value.Dict?
    ensures r.Ok? ==> r.value == value.items
    ensures r.Err? ==> r.error.AttributeError?
  {
    match value
    case Dict(items) => Ok(items)
    case _ => Err(AttributeError("object has no attribute 'items'"))
  }

  // ---------------------------------------------------------------------
  // The factory's keyword arguments
  // ---------------------------------------------------------------------

  /** The `PARAMS` keys, lower-cased, in order and with repetitions. */
  function LoweredKeys(items: seq<(string, Value)>): (ks: seq<string>)
  {
    if items == [] then [] else LoweredKeys(items[..|items| - 1]) + [Lower(items[|items| - 1].0)]
  }

  /** The distinct keys of `ks` in the order of their first occurrence. */
  function Dedup(ks: seq<string>): seq<string>
  {
    if ks == [] then []
    else
      var first := Dedup(ks[..|ks| - 1]);
      if ks[|ks| - 1] in first then first else first + [ks[|ks| - 1]]
  }

  /** The value of the last entry whose lower-cased key is `k`. */
  function LastWith(items: seq<(string, Value)>, k: string): Option<Value>
  {
    if items == [] then None
    else if Lower(items[|items| - 1].0) == k then Some(items[|items| - 1].1)
    else LastWith(items[..|items| - 1], k)
  }

  /**
   * `{k.lower(): v for k, v in PARAMS.items()}`: one entry per distinct
   * lower-cased key, at the place of its first occurrence, holding the value
   * of its last occurrence.
   */
  function LowerKeys(items: seq<(string, Value)>): (kwargs: seq<(string, Value)>)
    ensures Distinct(KeysOf(kwargs))
    ensures KeysOf(kwargs) == Dedup(LoweredKeys(items))
    ensures forall k :: Lookup(kwargs, k) == LastWith(items, k)
    decreases |items|
  {
    if items == [] then []
    else
      var init := items[..|items| - 1];
      var kwargs := Put(LowerKeys(init), Lower(items[|items| - 1].0), items[|items| - 1].1);
      LowerKeysStep(items, LowerKeys(init), kwargs);
      kwargs
  }

  /** One more `PARAMS` entry keeps the keyword arguments as `LowerKeys` promises. */
  lemma LowerKeysStep(items: seq<(string, Value)>, before: seq<(string, Value)>, after: seq<(string, Value)>)
    requires items != []
    requires Distinct(KeysOf(before))
    requires KeysOf(before) == Dedup(LoweredKeys(items[..|items| - 1]))
    requires forall k :: Lookup(before, k) == LastWith(items[..|items| - 1], k)
    requires after == Put(before, Lower(items[|items| - 1].0), items[|items| - 1].1)
    ensures Distinct(KeysOf(after))
    ensures KeysOf(after) == Dedup(LoweredKeys(items))
    ensures forall k :: Lookup(after, k) == LastWith(items, k)
  {
    StepKeys(items, before, after);
    StepLookup(items, before, after);
  }

  lemma StepKeys(items: seq<(string, Value)>, before: seq<(string, Value)>, after: seq<(string, Value)>)
    requires items != []
    requires Distinct(KeysOf(before))
    requires KeysOf(before) == Dedup(LoweredKeys(items[..|items| - 1]))
    requires after == Put(before, Lower(items[|items| - 1].0), items[|items| - 1].1)
    ensures Distinct(KeysOf(after))
    ensures KeysOf(after) == Dedup(LoweredKeys(items))
  {
    var key := Lower(items[|items| - 1].0);
    var ks := LoweredKeys(items);
    assert ks[..|ks| - 1] == LoweredKeys(items[..|items| - 1]);
    var prev := KeysOf(before);
    assert Dedup(ks) == if key in prev then prev else prev + [key];
    assert KeysOf(after) == if key in prev then prev else prev + [key];
    DistinctAppend(prev, key);
  }

  lemma StepLookup(items: seq<(string, Value)>, before: seq<(string, Value)>, after: seq<(string, Value)>)
    requires items != []
    requires forall k :: Lookup(before, k) == LastWith(items[..|items| - 1], k)
    requires after == Put(before, Lower(items[|items| - 1].0), items[|items| - 1].1)
    ensures forall k :: Lookup(after, k) == LastWith(items, k)
  {
    var key := Lower(items[|items| - 1].0);
    forall k
      ensures Lookup(after, k) == LastWith(items, k)
    {
      if k != key {
        assert Lookup(after, k) == Lookup(before, k);
      }
    }
  }

  lemma DistinctAppend(ks: seq<string>, k: string)
    requires Distinct(ks)
    ensures k !in ks ==> Distinct(ks + [k])
  {
  }

  /** Every keyword is some `PARAMS` key lower-cased. */
  lemma {:induction false} DedupWithin(ks: seq<string>)
    ensures forall k :: k in Dedup(ks) ==> k in ks
  {
    if ks != [] {
      DedupWithin(ks[..|ks| - 1]);
    }
  }

  // ---------------------------------------------------------------------
  // Reading the factory's TypeError message
  // ---------------------------------------------------------------------

  /** The length of the run of `\w` characters at the start of `s`. */
  function WordRun(s: string): (n: nat)
    ensures n <= |s|
    ensures forall i :: 0 <= i < n ==> IsWordChar(s[i])
    ensures n < |s| ==> !IsWordChar(s[n])
  {
    if s == [] || !IsWordChar(s[0]) then 0 else 1 + WordRun(s[1..])
  }

  /** The length of the run of `\d` characters at the start of `s`. */
  function DigitRun(s: string): (n: nat)
    ensures n <= |s|
    ensures forall i :: 0 <= i < n ==> IsDigit(s[i])
    ensures n < |s| ==> !IsDigit(s[n])
  {
    if s == [] || !IsDigit(s[0]) then 0 else 1 + DigitRun(s[1..])
  }

  /** `'(\w+)'` matches at the start of `s`. */
  predicate QuotedWordAt(s: string) {
    |s| > 0 && s[0] == '\'' &&
    var n := WordRun(s[1..]);
    n > 0 && n + 1 < |s| && s[n + 1] == '\''
  }

  /** `re.findall(r"'(\w+)'", s)`: the quoted words, left to right, without overlap. */
  function FindQuoted(s: string): (r: seq<string>)
    ensures forall i :: 0 <= i < |r| ==> IsWord(r[i])
    decreases |s|
  {
    if |s| == 0 then []
    else if QuotedWordAt(s) then
      var n := WordRun(s[1..]);
      [s[1..n + 1]] + FindQuoted(s[n + 2..])
    else FindQuoted(s[1..])
  }

  const MissingArgStart := "missing "
  const MissingArgMiddle := " required positional argument"
  const InvalidArgMatch := "got an unexpected keyword argument"

  /** `missing \d+ required positional arguments?: ` matches at the start of `s`. */
  predicate MissingArgAt(s: string) {
    StartsWith(s, MissingArgStart) &&
    var d := DigitRun(s[|MissingArgStart|..]);
    d > 0 &&
    var after := s[|MissingArgStart| + d..];
    StartsWith(after, MissingArgMiddle) &&
    var tail := after[|MissingArgMiddle|..];
    StartsWith(tail, ": ") || StartsWith(tail, "s: ")
  }

  /** `re.search(MISSING_ARG_REGEX, s)` finds a match. */
  predicate MissingArgSearch(s: string)
    decreases |s|
  {
    MissingArgAt(s) || (|s| > 0 && MissingArgSearch(s[1..]))
  }

  /** `re.search` finds the missing-argument pattern exactly when it matches at some position. */
  lemma {:induction false} MissingArgSearchFinds(s: string)
    ensures MissingArgSearch(s) <==> exists k :: 0 <= k <= |s| && MissingArgAt(s[k..])
    decreases |s|
  {
    assert s[0..] == s;
    if |s| > 0 {
      MissingArgSearchFinds(s[1..]);
      assert forall k :: 0 <= k <= |s| - 1 ==> s[1..][k..] == s[k + 1..];
      if !MissingArgSearch(s) {
        forall k | 0 <= k <= |s|
          ensures !MissingArgAt(s[k..])
        {
          if k > 0 {
            assert s[k..] == s[1..][k - 1..];
          }
        }
      }
    }
  }

  /** `obj.setting.PARAMS.ARG`: the setting a factory argument comes from. */
  function ParamSetting(objName: string, settingName: string, arg: string): string {
    objName + "." + settingName + ".PARAMS." + Upper(arg)
  }

  function ParamSettings(objName: string, settingName: string, args: seq<string>): (r: seq<string>)
    ensures |r| == |args|
    ensures forall i :: 0 <= i < |args| ==> r[i] == ParamSetting(objName, settingName, args[i])
  {
    if args == [] then [] else [ParamSetting(objName, settingName, args[0])] + ParamSettings(objName, settingName, args[1..])
  }

  function RequiredParamsMessage(objName: string, settingName: string, args: seq<string>): string {
    "Required setting(s): " + Join(", ", ParamSettings(objName, settingName, args))
  }

  function InvalidParamMessage(objName: string, settingName: string, arg: string): string {
    "Invalid setting: " + ParamSetting(objName, settingName, arg)
  }

  /** What `match.group(1)` raises when `re.search` found nothing. */
  const NoMatchMessage := "'NoneType' object has no attribute 'group'"

  /**
   * The `except TypeError` clause of `ObjectFactorySetting.__get__`: a
   * missing-argument message becomes a "Required setting(s)" error, checked
   * first; an unexpected-keyword message becomes an "Invalid setting" error
   * for the first quoted name; anything else passes through unchanged.
   */
  function RemapCallError(objName: string, settingName: string, outcome: Result<Value>): (r: Result<Value>)
    ensures r.Ok? <==> outcome.Ok?
    ensures outcome.Ok? ==> r == outcome
    ensures outcome.Err? && !outcome.error.TypeError? ==> r == outcome
    ensures r.Err? && r.error.ImproperlyConfigured? && r != outcome ==> outcome.Err? && outcome.error.TypeError?
    ensures outcome.Err? && outcome.error.TypeError? && MissingArgSearch(outcome.error.msg) ==>
              r == Err(ImproperlyConfigured(RequiredParamsMessage(objName, settingName, FindQuoted(outcome.error.msg))))
    ensures (outcome.Err? && outcome.error.TypeError? && !MissingArgSearch(outcome.error.msg)
             && Contains(outcome.error.msg, InvalidArgMatch)) ==>
              r == if FindQuoted(outcome.error.msg) == [] then Err(AttributeError(NoMatchMessage))
                   else Err(ImproperlyConfigured(InvalidParamMessage(objName, settingName, FindQuoted(outcome.error.msg)[0])))
    ensures (outcome.Err? && outcome.error.TypeError? && !MissingArgSearch(outcome.error.msg)
             && !Contains(outcome.error.msg, InvalidArgMatch)) ==> r == outcome
  {
    match outcome
    case Ok(_) => outcome
    case Err(e) =>
      if !e.TypeError? then outcome
      else if MissingArgSearch(e.msg) then
        Err(ImproperlyConfigured(RequiredParamsMessage(objName, settingName, FindQuoted(e.msg))))
      else if Contains(e.msg, InvalidArgMatch) then
        var names := FindQuoted(e.msg);
        if names == [] then Err(AttributeError(NoMatchMessage))
        else Err(ImproperlyConfigured(InvalidParamMessage(objName, settingName, names[0])))
      else outcome
  }

  // ---------------------------------------------------------------------
  // ObjectFactorySetting
  // ---------------------------------------------------------------------

  /**
   * `ObjectFactorySetting.__get__`: resolve the definition, import its
   * `FACTORY`, call it with the lower-cased `PARAMS`, and remap the call's
   * argument errors. Errors before the call propagate unchanged.
   */
  function ObjectFactoryGet(rt: Runtime, instance: Instance, s: Setting): (r: Result<Value>)
    ensures Get(instance, s).Err? ==> r == Get(instance, s)
    ensures var definition := Get(instance, s);
      definition.Ok? ==>
        var path := Subscript(definition.value, "FACTORY");
        (path.Err? ==> r == path) &&
        (path.Ok? ==>
          var factory := rt.importString(path.value);
          (factory.Err? ==> r == factory) &&
          (factory.Ok? ==>
            var params := Subscript(definition.value, "PARAMS");
            (params.Err? ==> r == params) &&
            (params.Ok? ==>
              var items := Items(params.value);
              (items.Err? ==> r == Err(items.error)) &&
              (items.Ok? ==>
                r == RemapCallError(instance.obj.name, s.name, rt.call(factory.value, LowerKeys(items.value)))))))
  {
    var definition :- Get(instance, s);
    var path :- Subscript(definition, "FACTORY");
    var factory :- rt.importString(path);
    var params :- Subscript(definition, "PARAMS");
    var items :- Items(params);
    RemapCallError(instance.obj.name, s.name, rt.call(factory, LowerKeys(items)))
  }
}
