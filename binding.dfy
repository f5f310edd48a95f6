/**
 * Why reading the factory's error message works.
 *
 * `ObjectFactorySetting` learns which `PARAMS` are missing or unexpected
 * only from the text of the `TypeError` that calling the factory raises. This
 * module models how CPython binds keyword arguments to a plain function
 * (positional-or-keyword parameters, some with defaults, no `*args` or
 * `**kwargs`) and the wording of the two errors it raises, and a direct
 * check that computes the same errors from the declared parameters. The
 * lemmas show that the message-reading remap and the direct check agree
 * whenever every name is a `\w+` word, and that they part ways when an
 * unexpected key is not.
 *
 * The wording is CPython's up to version 3.12. Later versions may append a
 * suggestion (`. Did you mean 'x'?`) to the unexpected-keyword message,
 * which adds a second quoted name after the keyword.
 */
module ArgumentBinding {
  import opened Results
  import opened Text
  import opened AppSettings

  datatype Param = Param(name: string, hasDefault: bool)

  /** A factory's qualified name and its declared parameters, in order. */
  datatype Signature = Signature(qualname: string, params: seq<Param>)

  function ParamNames(params: seq<Param>): (names: seq<string>)
    ensures |names| == |params| && forall i :: 0 <= i < |params| ==> names[i] == params[i].name
  {
    if params == [] then [] else [params[0].name] + ParamNames(params[1..])
  }

  /** The keyword names that no parameter accepts, in keyword order. */
  function Unexpected(names: seq<string>, keys: seq<string>): (r: seq<string>)
    ensures forall i :: 0 <= i < |r| ==> r[i] in keys && r[i] !in names
    ensures forall k :: k in keys && k !in names ==> k in r
  {
    if keys == [] then []
    else (if keys[0] in names then [] else [keys[0]]) + Unexpected(names, keys[1..])
  }

  /** The parameters without a default that no keyword supplies, in declaration order. */
  function Missing(params: seq<Param>, keys: seq<string>): (r: seq<string>)
    ensures forall i :: 0 <= i < |r| ==> r[i] in ParamNames(params) && r[i] !in keys
    ensures forall i :: 0 <= i < |params| && !params[i].hasDefault && params[i].name !in keys ==>
              params[i].name in r
  {
    if params == [] then []
    else (if params[0].hasDefault || params[0].name in keys then [] else [params[0].name])
         + Missing(params[1..], keys)
  }

  function Quote(name: string): string {
    "'" + name + "'"
  }

  /** CPython's list of missing names: `'a'`, `'a' and 'b'`, `'a', 'b', and 'c'`. */
  function FormatNames(names: seq<string>): string
    requires |names| >= 1
  {
    if |names| == 1 then Quote(names[0])
    else if |names| == 2 then Quote(names[0]) + " and " + Quote(names[1])
    else CommaList(names)
  }

  function CommaList(names: seq<string>): string
    requires |names| >= 2
  {
    if |names| == 2 then Quote(names[0]) + ", and " + Quote(names[1])
    else Quote(names[0]) + ", " + CommaList(names[1..])
  }

  function MissingMessage(qualname: string, names: seq<string>): string
    requires |names| >= 1
  {
    qualname + "() " + MissingWording(names)
  }

  function MissingWording(names: seq<string>): string
    requires |names| >= 1
  {
    MissingArgStart + DecimalString(|names|) + MissingArgMiddle
    + (if |names| == 1 then "" else "s") + ": " + FormatNames(names)
  }

  function UnexpectedMessage(qualname: string, name: string): string {
    qualname + "() " + InvalidArgMatch + " " + Quote(name)
  }

  /**
   * The `TypeError` message CPython raises when it cannot bind the keywords:
   * the first unexpected keyword is reported before any missing parameter.
   */
  function BindingError(sig: Signature, kwargs: seq<(string, Value)>): Option<string>
  {
    var unexpected := Unexpected(ParamNames(sig.params), KeysOf(kwargs));
    var missing := Missing(sig.params, KeysOf(kwargs));
    if unexpected != [] then Some(UnexpectedMessage(sig.qualname, unexpected[0]))
    else if missing != [] then Some(MissingMessage(sig.qualname, missing))
    else None
  }

  /** Calling a plain Python function whose body computes `body(kwargs)`. */
  function CallPython(sig: Signature, body: seq<(string, Value)> -> Value, kwargs: seq<(string, Value)>): Result<Value>
  {
    match BindingError(sig, kwargs)
    case Some(message) => Err(TypeError(message))
    case None => Ok(body(kwargs))
  }

  /**
   * The configuration error computed from the declared parameters and the
   * supplied keywords directly, without reading any message.
   */
  function ExplicitCheck(objName: string, settingName: string, sig: Signature, kwargs: seq<(string, Value)>): Option<Exception>
  {
    var unexpected := Unexpected(ParamNames(sig.params), KeysOf(kwargs));
    var missing := Missing(sig.params, KeysOf(kwargs));
    if unexpected != [] then Some(ImproperlyConfigured(InvalidParamMessage(objName, settingName, unexpected[0])))
    else if missing != [] then Some(ImproperlyConfigured(RequiredParamsMessage(objName, settingName, missing)))
    else None
  }

  function Expected(objName: string, settingName: string, sig: Signature,
                    body: seq<(string, Value)> -> Value, kwargs: seq<(string, Value)>): Result<Value>
  {
    match ExplicitCheck(objName, settingName, sig, kwargs)
    case Some(e) => Err(e)
    case None => Ok(body(kwargs))
  }

  // ---------------------------------------------------------------------
  // Reading quoted words
  // ---------------------------------------------------------------------

  /** A run of word characters ends where the first non-word character stands. */
  lemma WordRunOf(w: string, rest: string)
    requires forall i :: 0 <= i < |w| ==> IsWordChar(w[i])
    requires rest == [] || !IsWordChar(rest[0])
    ensures WordRun(w + rest) == |w|
  {
    var n := WordRun(w + rest);
    assert forall i :: 0 <= i < |w| ==> (w + rest)[i] == w[i];
    assert |w| < |w + rest| ==> (w + rest)[|w|] == rest[0];
  }

  /** Text without quotes yields no quoted words. */
  lemma {:induction false} FindQuotedSkip(p: string, t: string)
    requires Free(p, '\'')
    ensures FindQuoted(p + t) == FindQuoted(t)
    decreases |p|
  {
    if |p| > 0 {
      assert (p + t)[0] == p[0];
      assert (p + t)[1..] == p[1..] + t;
      FindQuotedSkip(p[1..], t);
    } else {
      assert p + t == t;
    }
  }

  /** A quoted word is found, and the search goes on right after its closing quote. */
  lemma FindQuotedWord(w: string, t: string)
    requires IsWord(w)
    ensures FindQuoted(Quote(w) + t) == [w] + FindQuoted(t)
  {
    var s := Quote(w) + t;
    assert s[1..] == w + ("'" + t);
    WordRunOf(w, "'" + t);
    assert s[|w| + 1] == '\'';
    assert QuotedWordAt(s);
    assert s[1..|w| + 1] == w;
    assert s[|w| + 2..] == t;
  }

  /** Quoted words separated by quote-free text are found in order. */
  lemma {:induction false} FindCommaList(names: seq<string>)
    requires |names| >= 2
    requires forall i :: 0 <= i < |names| ==> IsWord(names[i])
    ensures FindQuoted(CommaList(names)) == names
  {
    var sep := if |names| == 2 then ", and " else ", ";
    var rest := if |names| == 2 then Quote(names[1]) else CommaList(names[1..]);
    assert CommaList(names) == Quote(names[0]) + (sep + rest);
    FindQuotedWord(names[0], sep + rest);
    FindQuotedSkip(sep, rest);
    if |names| == 2 {
      assert rest == Quote(names[1]) + "";
      FindQuotedWord(names[1], "");
      assert names == [names[0]] + [names[1]];
    } else {
      FindCommaList(names[1..]);
    }
  }

  lemma FindFormatNames(names: seq<string>)
    requires |names| >= 1
    requires forall i :: 0 <= i < |names| ==> IsWord(names[i])
    ensures FindQuoted(FormatNames(names)) == names
  {
    if |names| == 1 {
      assert FormatNames(names) == Quote(names[0]) + "";
      FindQuotedWord(names[0], "");
    } else if |names| == 2 {
      assert FormatNames(names) == Quote(names[0]) + (" and " + (Quote(names[1]) + ""));
      FindQuotedWord(names[0], " and " + (Quote(names[1]) + ""));
      FindQuotedSkip(" and ", Quote(names[1]) + "");
      FindQuotedWord(names[1], "");
      assert names == [names[0]] + [names[1]];
    } else {
      FindCommaList(names);
    }
  }

  // ---------------------------------------------------------------------
  // Recognising the missing-argument message
  // ---------------------------------------------------------------------

  lemma DigitRunOf(d: string, rest: string)
    requires forall i :: 0 <= i < |d| ==> IsDigit(d[i])
    requires rest == [] || !IsDigit(rest[0])
    ensures DigitRun(d + rest) == |d|
  {
    var n := DigitRun(d + rest);
    assert forall i :: 0 <= i < |d| ==> (d + rest)[i] == d[i];
    assert |d| < |d + rest| ==> (d + rest)[|d|] == rest[0];
  }

  /** The pattern matches where CPython's missing-argument wording starts. */
  lemma MissingArgAtWording(count: string, plural: string, tail: string)
    requires |count| > 0 && forall i :: 0 <= i < |count| ==> IsDigit(count[i])
    requires plural == "" || plural == "s"
    ensures MissingArgAt(MissingArgStart + count + MissingArgMiddle + plural + ": " + tail)
  {
    var x := MissingArgStart + count + MissingArgMiddle + plural + ": " + tail;
    var afterStart := count + (MissingArgMiddle + plural + ": " + tail);
    assert x[|MissingArgStart|..] == afterStart;
    DigitRunOf(count, MissingArgMiddle + plural + ": " + tail);
    var after := x[|MissingArgStart| + |count|..];
    assert after == MissingArgMiddle + (plural + ": " + tail);
    assert after[|MissingArgMiddle|..] == plural + ": " + tail;
    assert StartsWith(plural + ": " + tail, plural + ": ");
  }

  /** A match anywhere is a match of the search. */
  lemma {:induction false} MissingArgSearchAfter(p: string, x: string)
    requires MissingArgAt(x)
    ensures MissingArgSearch(p + x)
    decreases |p|
  {
    if |p| > 0 {
      assert (p + x)[1..] == p[1..] + x;
      MissingArgSearchAfter(p[1..], x);
    } else {
      assert p + x == x;
    }
  }

  /** The missing-argument pattern ends in a colon, so text without one never matches. */
  lemma {:induction false} MissingArgNeedsColon(s: string)
    requires MissingArgSearch(s)
    ensures !Free(s, ':')
    decreases |s|
  {
    if MissingArgAt(s) {
      var d := DigitRun(s[|MissingArgStart|..]);
      var k := |MissingArgStart| + d + |MissingArgMiddle|;
      var tail := s[k..];
      assert tail == s[|MissingArgStart| + d..][|MissingArgMiddle|..];
      if StartsWith(tail, ": ") {
        assert s[k] == ':';
      } else {
        assert s[k + 1] == ':';
      }
    } else {
      MissingArgNeedsColon(s[1..]);
      var i :| 0 <= i < |s[1..]| && s[1..][i] == ':';
      assert s[i + 1] == ':';
    }
  }

  // ---------------------------------------------------------------------
  // The two wordings, read back
  // ---------------------------------------------------------------------

  /** CPython's missing-argument message is recognised and yields exactly the missing names. */
  lemma ReadMissingMessage(qualname: string, names: seq<string>)
    requires |names| >= 1
    requires Free(qualname, '\'')
    requires forall i :: 0 <= i < |names| ==> IsWord(names[i])
    ensures MissingArgSearch(MissingMessage(qualname, names))
    ensures FindQuoted(MissingMessage(qualname, names)) == names
  {
    MissingMessageMatches(qualname, names);
    var prefix := MissingPrefix(qualname, names);
    MissingPrefixUnquoted(qualname, names);
    FindQuotedSkip(prefix, FormatNames(names));
    FindFormatNames(names);
  }

  /** Everything before the list of names. */
  function MissingPrefix(qualname: string, names: seq<string>): (p: string)
    requires |names| >= 1
    ensures MissingMessage(qualname, names) == p + FormatNames(names)
  {
    var count := DecimalString(|names|);
    var plural := if |names| == 1 then "" else "s";
    assert MissingMessage(qualname, names)
        == qualname + "() " + (MissingArgStart + count + MissingArgMiddle + plural + ": " + FormatNames(names));
    qualname + "() " + MissingArgStart + DecimalString(|names|) + MissingArgMiddle
    + (if |names| == 1 then "" else "s") + ": "
  }

  lemma MissingPrefixUnquoted(qualname: string, names: seq<string>)
    requires |names| >= 1
    requires Free(qualname, '\'')
    ensures Free(MissingPrefix(qualname, names), '\'')
  {
    var count := DecimalString(|names|);
    var plural := if |names| == 1 then "" else "s";
    assert forall i :: 0 <= i < |count| ==> count[i] != '\'';
    FreeConcat(qualname, "() " + MissingArgStart, '\'');
    FreeConcat(qualname + "() " + MissingArgStart, count, '\'');
    FreeConcat(qualname + "() " + MissingArgStart + count, MissingArgMiddle + plural + ": ", '\'');
    assert qualname + "() " + MissingArgStart + count + (MissingArgMiddle + plural + ": ")
        == MissingPrefix(qualname, names);
  }

  lemma MissingMessageMatches(qualname: string, names: seq<string>)
    requires |names| >= 1
    ensures MissingArgSearch(MissingMessage(qualname, names))
  {
    MissingArgAtWording(DecimalString(|names|), if |names| == 1 then "" else "s", FormatNames(names));
    MissingArgSearchAfter(qualname + "() ", MissingWording(names));
  }

  function UnexpectedPrefix(qualname: string): string {
    qualname + "() " + InvalidArgMatch + " "
  }

  /**
   * The unexpected-keyword message for a colon-free name is not mistaken
   * for a missing argument and holds the phrase looked for.
   */
  lemma UnexpectedMessageShape(qualname: string, name: string)
    requires Free(qualname, '\'') && Free(qualname, ':')
    requires Free(name, ':')
    ensures UnexpectedMessage(qualname, name) == UnexpectedPrefix(qualname) + Quote(name)
    ensures Free(UnexpectedPrefix(qualname), '\'')
    ensures !MissingArgSearch(UnexpectedMessage(qualname, name))
    ensures Contains(UnexpectedMessage(qualname, name), InvalidArgMatch)
  {
    var m := UnexpectedMessage(qualname, name);
    var prefix := UnexpectedPrefix(qualname);
    assert m == (qualname + "() ") + InvalidArgMatch + (" " + Quote(name));
    ContainsInside(qualname + "() ", InvalidArgMatch, " " + Quote(name));
    FreeConcat(qualname, "() " + InvalidArgMatch + " ", ':');
    FreeConcat(qualname, "() " + InvalidArgMatch + " ", '\'');
    assert qualname + ("() " + InvalidArgMatch + " ") == prefix;
    assert Free(Quote(name), ':');
    FreeConcat(prefix, Quote(name), ':');
    if MissingArgSearch(m) {
      MissingArgNeedsColon(m);
    }
  }

  /**
   * CPython's unexpected-keyword message is not mistaken for a missing
   * argument, holds the phrase looked for, and yields the keyword first.
   */
  lemma ReadUnexpectedMessage(qualname: string, name: string)
    requires Free(qualname, '\'') && Free(qualname, ':')
    requires IsWord(name)
    ensures !MissingArgSearch(UnexpectedMessage(qualname, name))
    ensures Contains(UnexpectedMessage(qualname, name), InvalidArgMatch)
    ensures FindQuoted(UnexpectedMessage(qualname, name)) == [name]
  {
    UnexpectedMessageShape(qualname, name);
    FindQuotedSkip(UnexpectedPrefix(qualname), Quote(name));
    assert Quote(name) == Quote(name) + "";
    FindQuotedWord(name, "");
  }

  /** A name with a dash in it is not a quoted word, nor is anything after it. */
  lemma FindQuotedDashed(a: string, b: string)
    requires IsWord(a) && IsWord(b)
    ensures FindQuoted(Quote(a + "-" + b)) == []
  {
    var name := a + "-" + b;
    var q := Quote(name);
    assert q[1..] == a + ("-" + b + "'");
    WordRunOf(a, "-" + b + "'");
    assert q[|a| + 1] == '-';
    assert !QuotedWordAt(q);
    assert FindQuoted(q) == FindQuoted(q[1..]);
    assert q[1..] == name + "'";
    assert Free(name, '\'');
    FindQuotedSkip(name, "'");
    assert !QuotedWordAt("'");
  }

  // ---------------------------------------------------------------------
  // The remap against the direct check
  // ---------------------------------------------------------------------

  /**
   * For a factory that is a plain Python function, remapping the error of
   * the call gives what the direct check over the declared parameters gives:
   * "Invalid setting" for the first unexpected keyword, otherwise "Required
   * setting(s)" for every missing parameter in declaration order, otherwise
   * the factory's result.
   */
  lemma RemapAgreesWithSignature(objName: string, settingName: string, sig: Signature,
                                 body: seq<(string, Value)> -> Value, kwargs: seq<(string, Value)>)
    requires Free(sig.qualname, '\'') && Free(sig.qualname, ':')
    requires forall i :: 0 <= i < |sig.params| ==> IsWord(sig.params[i].name)
    requires forall i :: 0 <= i < |kwargs| ==> IsWord(kwargs[i].0)
    ensures RemapCallError(objName, settingName, CallPython(sig, body, kwargs))
         == Expected(objName, settingName, sig, body, kwargs)
  {
    var names := ParamNames(sig.params);
    var keys := KeysOf(kwargs);
    var unexpected := Unexpected(names, keys);
    var missing := Missing(sig.params, keys);
    if unexpected != [] {
      assert unexpected[0] in keys;
      ReadUnexpectedMessage(sig.qualname, unexpected[0]);
    } else if missing != [] {
      forall i | 0 <= i < |missing|
        ensures IsWord(missing[i])
      {
        assert missing[i] in names;
      }
      ReadMissingMessage(sig.qualname, missing);
    }
  }

  /**
   * An unexpected `PARAMS` key that is not a `\w+` word (here `a-b`) is not
   * found by the name pattern, so `match.group(1)` fails and the read raises
   * AttributeError instead of a configuration error.
   */
  lemma NonWordKeyRaisesAttributeError(objName: string, settingName: string, sig: Signature,
                                       body: seq<(string, Value)> -> Value, kwargs: seq<(string, Value)>,
                                       a: string, b: string)
    requires Free(sig.qualname, '\'') && Free(sig.qualname, ':')
    requires IsWord(a) && IsWord(b)
    requires Unexpected(ParamNames(sig.params), KeysOf(kwargs)) != []
    requires Unexpected(ParamNames(sig.params), KeysOf(kwargs))[0] == a + "-" + b
    ensures RemapCallError(objName, settingName, CallPython(sig, body, kwargs))
         == Err(AttributeError(NoMatchMessage))
  {
    var name := a + "-" + b;
    var m := UnexpectedMessage(sig.qualname, name);
    assert CallPython(sig, body, kwargs) == Err(TypeError(m));
    assert Free(name, ':');
    UnexpectedMessageShape(sig.qualname, name);
    FindQuotedSkip(UnexpectedPrefix(sig.qualname), Quote(name));
    FindQuotedDashed(a, b);
  }

  /**
   * `ObjectFactorySetting.__get__` on a well-formed definition whose factory
   * is a plain Python function: the result is what the direct check gives for
   * the lower-cased `PARAMS`.
   */
  lemma ObjectFactoryAgreesWithSignature(rt: Runtime, obj: SettingsObject, s: Setting, definition: Value,
                                         path: Value, factory: Value, items: seq<(string, Value)>,
                                         sig: Signature, body: seq<(string, Value)> -> Value)
    requires Get(Owner(obj), s) == Ok(definition)
    requires Subscript(definition, "FACTORY") == Ok(path)
    requires rt.importString(path) == Ok(factory)
    requires Subscript(definition, "PARAMS") == Ok(Dict(items))
    requires rt.call(factory, LowerKeys(items)) == CallPython(sig, body, LowerKeys(items))
    requires Free(sig.qualname, '\'') && Free(sig.qualname, ':')
    requires forall i :: 0 <= i < |sig.params| ==> IsWord(sig.params[i].name)
    requires forall i :: 0 <= i < |items| ==> IsWord(items[i].0)
    ensures ObjectFactoryGet(rt, Owner(obj), s) == Expected(obj.name, s.name, sig, body, LowerKeys(items))
  {
    FactoryGetCalls(rt, obj, s, definition, path, factory, items);
    KeywordsAreWords(items);
    RemapAgreesWithSignature(obj.name, s.name, sig, body, LowerKeys(items));
  }

  /** Past the lookups and the import, the read is the remapped call. */
  lemma FactoryGetCalls(rt: Runtime, obj: SettingsObject, s: Setting, definition: Value,
                        path: Value, factory: Value, items: seq<(string, Value)>)
    requires Get(Owner(obj), s) == Ok(definition)
    requires Subscript(definition, "FACTORY") == Ok(path)
    requires rt.importString(path) == Ok(factory)
    requires Subscript(definition, "PARAMS") == Ok(Dict(items))
    ensures ObjectFactoryGet(rt, Owner(obj), s) == RemapCallError(obj.name, s.name, rt.call(factory, LowerKeys(items)))
  {
  }

  /** Word keys stay word keys when lower-cased into keyword arguments. */
  lemma KeywordsAreWords(items: seq<(string, Value)>)
    requires forall i :: 0 <= i < |items| ==> IsWord(items[i].0)
    ensures forall i :: 0 <= i < |LowerKeys(items)| ==> IsWord(LowerKeys(items)[i].0)
  {
    var kwargs := LowerKeys(items);
    LoweredKeysAreWords(items);
    DedupWithin(LoweredKeys(items));
    forall i | 0 <= i < |kwargs|
      ensures IsWord(kwargs[i].0)
    {
      assert KeysOf(kwargs)[i] == kwargs[i].0;
    }
  }

  lemma {:induction false} LoweredKeysAreWords(items: seq<(string, Value)>)
    requires forall i :: 0 <= i < |items| ==> IsWord(items[i].0)
    ensures forall k :: k in LoweredKeys(items) ==> IsWord(k)
  {
    if items != [] {
      LoweredKeysAreWords(items[..|items| - 1]);
      LowerKeepsWord(items[|items| - 1].0);
    }
  }
}
