/** Configuration lookup: a key is looked up as a JVM system property, then
    as an environment variable, then in the optional `.env` file; each raw
    value is sanitised, and a value that sanitises to nothing falls through
    to the next source. The three sources are plain maps here. */
module EnvConfig {
  import opened Wrappers
  import opened JavaText
  import JavaNum

  /** The three places a setting can come from. `dotenv` is `None` when the
      `.env` loader itself failed. */
  datatype Environment = Environment(
    properties: map<string, string>,
    variables: map<string, string>,
    dotenv: Option<map<string, string>>)

  /** What a lookup can throw: `System.getProperty("")` rejects the empty
      key, and sanitising a lone quote calls `substring(1, 0)`. */
  datatype ConfigError = EmptyKey | LoneQuote

  function Find(m: map<string, string>, key: string): Option<string> {
    if key in m then Some(m[key]) else None
  }

  // ---------------------------------------------------------------- sanitize

  /** `t` starts and ends with `q`; a one-character `t` equal to `q` counts,
      as it does for `startsWith` and `endsWith`. */
  predicate QuotedBy(t: string, q: char) {
    |t| >= 1 && t[0] == q && t[|t| - 1] == q
  }

  predicate Quoted(t: string) {
    QuotedBy(t, '"') || QuotedBy(t, '\'')
  }

  /** The text between the first and the last character. */
  function Inner(t: string): (r: string)
    requires |t| >= 2
    ensures |r| == |t| - 2
  {
    t[1..|t| - 1]
  }

  /** Trims, strips one pair of matching surrounding quotes and trims again;
      nothing left means no value. */
  function Sanitize(value: Option<string>): (r: Result<Option<string>, ConfigError>)
    ensures value.None? ==> r == Ok(None)
  {
    if value.None? then Ok(None)
    else
      var trimmed := Trim(value.value);
      if Quoted(trimmed) && |trimmed| < 2 then Err(LoneQuote)
      else
        var unquoted := if Quoted(trimmed) then Trim(Inner(trimmed)) else trimmed;
        if unquoted == [] then Ok(None) else Ok(Some(unquoted))
  }

  /** `sanitize` throws exactly on text that trims to a single quote
      character: `substring(1, 0)` has its start after its end. */
  lemma SanitizeFailsOnLoneQuote(value: Option<string>)
    ensures Sanitize(value).Err? <==> value.Some? && (Trim(value.value) == "\"" || Trim(value.value) == "'")
  {
    if value.Some? {
      var t := Trim(value.value);
      if |t| == 1 {
        assert t == [t[0]];
      }
    }
  }

  /** Every value `sanitize` lets through is non-empty and has nothing left
      for `trim` to remove. */
  lemma SanitizedIsTrimmed(value: Option<string>)
    ensures var r := Sanitize(value);
      r.Ok? && r.value.Some? ==> r.value.value != [] && Trim(r.value.value) == r.value.value
  {
    if value.Some? {
      var trimmed := Trim(value.value);
      TrimIdempotent(value.value);
      if Quoted(trimmed) && |trimmed| >= 2 {
        TrimIdempotent(Inner(trimmed));
      }
    }
  }

  /** Blank text sanitises to no value. */
  lemma SanitizeBlank(s: string)
    requires IsBlank(Some(s))
    ensures Sanitize(Some(s)) == Ok(None)
  {
  }

  /** A trimmed, non-empty value without surrounding quotes is kept as is. */
  lemma SanitizeKeepsPlainText(s: string)
    requires s != [] && !IsTrimmable(s[0]) && !IsTrimmable(s[|s| - 1])
    requires !Quoted(s)
    ensures Sanitize(Some(s)) == Ok(Some(s))
  {
    TrimIdentity(s);
  }

  /** Quoting a trimmed value and sanitising it gives the value back. */
  lemma SanitizeUnquotes(x: string, q: char)
    requires q == '"' || q == '\''
    requires x == [] || (!IsTrimmable(x[0]) && !IsTrimmable(x[|x| - 1]))
    ensures Sanitize(Some([q] + x + [q])) == if x == [] then Ok(None) else Ok(Some(x))
  {
    var s := [q] + x + [q];
    QuotedShape(x, q, s);
    TrimIdentity(x);
    SanitizeTrimmedQuoted(s);
  }

  lemma SanitizeTrimmedQuoted(s: string)
    requires Quoted(Trim(s)) && |Trim(s)| >= 2
    ensures var u := Trim(Inner(Trim(s)));
      Sanitize(Some(s)) == if u == [] then Ok(None) else Ok(Some(u))
  {
  }

  lemma QuotedShape(x: string, q: char, s: string)
    requires q == '"' || q == '\''
    requires s == [q] + x + [q]
    ensures Quoted(Trim(s)) && |Trim(s)| >= 2 && Inner(Trim(s)) == x
  {
    assert s[0] == q && s[|s| - 1] == q;
    assert !IsTrimmable(q);
    TrimIdentity(s);
    assert QuotedBy(s, q);
    assert s[1..|s| - 1] == x;
  }

  // --------------------------------------------------------------------- get

  /** The raw values for `key`, in the order `get` consults them. */
  function Candidates(env: Environment, key: string): (r: seq<Option<string>>)
    ensures 2 <= |r| <= 3
  {
    [Find(env.properties, key), Find(env.variables, key)]
      + (if env.dotenv.Some? then [Find(env.dotenv.value, key)] else [])
  }

  /** Reference definition: the first value that `clean` turns into a value;
      a failure of `clean` ends the search. */
  function FirstPresent(values: seq<Option<string>>, clean: Option<string> -> Result<Option<string>, ConfigError>): (r: Result<Option<string>, ConfigError>)
  {
    if values == [] then Ok(None)
    else
      var v :- clean(values[0]);
      if v.Some? then Ok(v) else FirstPresent(values[1..], clean)
  }

  /** `FirstPresent` returns the cleaned value of the first candidate that has
      one, after every earlier candidate cleaned to nothing; it has no value
      exactly when every candidate cleans to nothing. */
  lemma {:induction false} FirstPresentShape(values: seq<Option<string>>, clean: Option<string> -> Result<Option<string>, ConfigError>)
    ensures var r := FirstPresent(values, clean);
      && (r == Ok(None) <==> forall i :: 0 <= i < |values| ==> clean(values[i]) == Ok(None))
      && (r.Ok? && r.value.Some? ==>
            exists i :: 0 <= i < |values| && clean(values[i]) == r
              && forall j :: 0 <= j < i ==> clean(values[j]) == Ok(None))
  {
    if values != [] {
      FirstPresentShape(values[1..], clean);
      var r := FirstPresent(values, clean);
      if clean(values[0]) == Ok(None) {
        assert forall i :: 1 <= i < |values| ==> values[i] == values[1..][i - 1];
        if r.Ok? && r.value.Some? {
          var i :| 0 <= i < |values| - 1 && clean(values[1..][i]) == r
            && forall j :: 0 <= j < i ==> clean(values[1..][j]) == Ok(None);
          assert clean(values[i + 1]) == r;
          assert forall j :: 0 <= j < i + 1 ==> clean(values[j]) == Ok(None) by {
            forall j | 0 <= j < i + 1
              ensures clean(values[j]) == Ok(None)
            {
              if j > 0 {
                assert values[j] == values[1..][j - 1];
              }
            }
          }
        }
      }
    }
  }

  /** `EnvConfig.get`. */
  function Get(env: Environment, key: string): (r: Result<Option<string>, ConfigError>)
    ensures key == [] ==> r == Err(EmptyKey)
  {
    if key == [] then Err(EmptyKey)
    else
      var fromProperty :- Sanitize(Find(env.properties, key));
      if fromProperty.Some? then Ok(fromProperty)
      else
        var fromVariable :- Sanitize(Find(env.variables, key));
        if fromVariable.Some? then Ok(fromVariable)
        else if env.dotenv.None? then Ok(None)
        else Sanitize(Find(env.dotenv.value, key))
  }

  /** `get` consults system property, environment variable and `.env` in that
      order, a source sanitising to nothing falling through to the next. */
  lemma GetTriesSourcesInOrder(env: Environment, key: string)
    requires key != []
    ensures Get(env, key) == FirstPresent(Candidates(env, key), Sanitize)
  {
    var c := Candidates(env, key);
    var rest := c[1..][1..];
    if env.dotenv.Some? {
      assert rest == [Find(env.dotenv.value, key)] && rest[1..] == [];
      assert FirstPresent(rest[1..], Sanitize) == Ok(None);
      assert FirstPresent(rest, Sanitize) == Sanitize(rest[0]);
    } else {
      assert rest == [];
    }
    assert c[0] == Find(env.properties, key) && c[1..][0] == Find(env.variables, key);
    var a := Sanitize(c[0]);
    if a.Ok? && a.value.None? {
      var b := Sanitize(c[1..][0]);
      assert FirstPresent(c, Sanitize) == FirstPresent(c[1..], Sanitize);
      if b.Ok? && b.value.None? {
        assert FirstPresent(c[1..], Sanitize) == FirstPresent(rest, Sanitize);
      }
    }
  }

  /** A system property with a value beats the environment and `.env`. */
  lemma PropertyWins(env: Environment, key: string, v: string)
    requires key != [] && key in env.properties
    requires Sanitize(Some(env.properties[key])) == Ok(Some(v))
    ensures Get(env, key) == Ok(Some(v))
  {
  }

  /** Every value `get` returns is trimmed and non-empty. */
  lemma GetIsSanitized(env: Environment, key: string)
    ensures var r := Get(env, key);
      r.Ok? && r.value.Some? ==> r.value.value != [] && Trim(r.value.value) == r.value.value
  {
    if key != [] {
      GetTriesSourcesInOrder(env, key);
      var c := Candidates(env, key);
      FirstPresentShape(c, Sanitize);
      var r := Get(env, key);
      if r.Ok? && r.value.Some? {
        var i :| 0 <= i < |c| && Sanitize(c[i]) == r;
        SanitizedIsTrimmed(c[i]);
      }
    }
  }

  // --------------------------------------------------------- typed accessors

  /** `getOrDefault`: the value of `key`, or `default` (which may be null). */
  function GetOrDefault(env: Environment, key: string, default: Option<string>): (r: Result<Option<string>, ConfigError>)
    ensures r.Ok? <==> Get(env, key).Ok?
    ensures r.Ok? && Get(env, key).value.Some? ==> r.value == Get(env, key).value
    ensures r.Ok? && Get(env, key).value.None? ==> r.value == default
  {
    var v :- Get(env, key);
    Ok(if v.Some? then v else default)
  }

  /** The first of `keys` that has a value, trying each through all sources. */
  function FirstOf(env: Environment, keys: seq<string>): (r: Result<Option<string>, ConfigError>)
  {
    if keys == [] then Ok(None)
    else
      var v :- Get(env, keys[0]);
      if v.Some? then Ok(v) else FirstOf(env, keys[1..])
  }

  /** `getFirstOrDefault`: an empty key list gives the default, as does a list
      none of whose keys has a value. A null key array is the empty list here. */
  function GetFirstOrDefault(env: Environment, default: Option<string>, keys: seq<string>): (r: Result<Option<string>, ConfigError>)
    ensures keys == [] ==> r == Ok(default)
    ensures r.Ok? && default.Some? ==> r.value.Some?
  {
    if keys == [] then Ok(default)
    else
      var v :- FirstOf(env, keys);
      Ok(if v.Some? then v else default)
  }

  /** `getOrDefault(key, d)` and `getFirstOrDefault(d, key)` agree. */
  lemma GetOrDefaultIsFirstOfOne(env: Environment, key: string, default: Option<string>)
    ensures GetOrDefault(env, key, default) == GetFirstOrDefault(env, default, [key])
  {
    assert [key][1..] == [];
    assert FirstOf(env, [key]) == Get(env, key);
  }

  /** The first key with a value wins, provided every earlier key looks up
      to nothing. */
  lemma {:induction false} FirstKeyWins(env: Environment, default: Option<string>, keys: seq<string>, i: nat, v: string)
    requires i < |keys| && Get(env, keys[i]) == Ok(Some(v))
    requires forall j :: 0 <= j < i ==> Get(env, keys[j]) == Ok(None)
    ensures GetFirstOrDefault(env, default, keys) == Ok(Some(v))
  {
    FirstOfFinds(env, keys, i, v);
  }

  lemma {:induction false} FirstOfFinds(env: Environment, keys: seq<string>, i: nat, v: string)
    requires i < |keys| && Get(env, keys[i]) == Ok(Some(v))
    requires forall j :: 0 <= j < i ==> Get(env, keys[j]) == Ok(None)
    ensures FirstOf(env, keys) == Ok(Some(v))
    decreases i
  {
    if i > 0 {
      assert Get(env, keys[0]) == Ok(None);
      assert forall j :: 0 <= j < i - 1 ==> keys[1..][j] == keys[j + 1];
      FirstOfFinds(env, keys[1..], i - 1, v);
    }
  }

  /** When no key has a value, the default comes back. */
  lemma {:induction false} NoKeyGivesDefault(env: Environment, default: Option<string>, keys: seq<string>)
    requires forall j :: 0 <= j < |keys| ==> Get(env, keys[j]) == Ok(None)
    ensures GetFirstOrDefault(env, default, keys) == Ok(default)
  {
    FirstOfNone(env, keys);
  }

  lemma {:induction false} FirstOfNone(env: Environment, keys: seq<string>)
    requires forall j :: 0 <= j < |keys| ==> Get(env, keys[j]) == Ok(None)
    ensures FirstOf(env, keys) == Ok(None)
  {
    if keys != [] {
      assert Get(env, keys[0]) == Ok(None);
      assert forall j :: 0 <= j < |keys| - 1 ==> keys[1..][j] == keys[j + 1];
      FirstOfNone(env, keys[1..]);
    }
  }

  /** `getIntOrDefault`: the value parsed by `Integer.parseInt`, or the default
      when the key has no value or its value does not parse. */
  function GetIntOrDefault(env: Environment, key: string, default: JavaNum.Int32): (r: Result<JavaNum.Int32, ConfigError>)
    ensures r.Ok? <==> Get(env, key).Ok?
    ensures r.Ok? && Get(env, key).value.None? ==> r.value == default
  {
    var v :- Get(env, key);
    if v.None? then Ok(default)
    else
      match JavaNum.ParseInt(v.value)
      case Ok(n) => Ok(n)
      case Err(_) => Ok(default)
  }

  /** A setting holding the decimal digits of an `int` yields that number. */
  lemma GetIntReadsDigits(env: Environment, key: string, default: JavaNum.Int32, n: nat)
    requires n <= JavaNum.MAX_INT
    requires Get(env, key) == Ok(Some(NatToString(n)))
    ensures GetIntOrDefault(env, key, default) == Ok(n)
  {
  }

  /** A setting that does not start with a sign or a digit falls back to the
      default. */
  lemma GetIntFallsBack(env: Environment, key: string, default: JavaNum.Int32, s: string)
    requires Get(env, key) == Ok(Some(s))
    requires s == [] || !(s[0] == '+' || s[0] == '-' || IsDigit(s[0]))
    ensures GetIntOrDefault(env, key, default) == Ok(default)
  {
  }
}
