/** `MappingReferenceCatalog.normalize`, the token normaliser every lookup in
    the service shares: trim, upper-case, turn each run of characters outside
    `[A-Z0-9]` into one `_`, then drop leading and trailing `_`. */
module Normalization {
  import opened Wrappers
  import opened JavaText

  predicate IsTokenChar(c: char) {
    'A' <= c <= 'Z' || '0' <= c <= '9'
  }

  /** No two adjacent underscores. */
  predicate NoDoubleUnderscore(t: string) {
    forall i :: 0 <= i < |t| - 1 ==> !(t[i] == '_' && t[i + 1] == '_')
  }

  predicate OverTokenAlphabet(t: string) {
    forall i :: 0 <= i < |t| ==> IsTokenChar(t[i]) || t[i] == '_'
  }

  /** The shape of every normalised token: letters `A-Z`, digits and single
      underscores between them, nothing else. */
  predicate IsCanonical(t: string) {
    && OverTokenAlphabet(t)
    && (t == [] || (t[0] != '_' && t[|t| - 1] != '_'))
    && NoDoubleUnderscore(t)
  }

  /** Drops the run of non-token characters at the front of `s`. */
  function SkipRun(s: string): (r: string)
    ensures |r| <= |s|
    ensures s != [] && !IsTokenChar(s[0]) ==> |r| < |s|
  {
    if s != [] && !IsTokenChar(s[0]) then SkipRun(s[1..]) else s
  }

  lemma {:induction false} SkipRunShape(s: string)
    ensures SkipRun(s) == [] || IsTokenChar(SkipRun(s)[0])
  {
    if s != [] && !IsTokenChar(s[0]) {
      SkipRunShape(s[1..]);
    }
  }

  /** `replaceAll("[^A-Z0-9]+", "_")`. */
  function CollapseRuns(s: string): string
    decreases |s|
  {
    if s == [] then []
    else if IsTokenChar(s[0]) then [s[0]] + CollapseRuns(s[1..])
    else "_" + CollapseRuns(SkipRun(s))
  }

  /** Runs collapse to single underscores, and the first character is a
      token character exactly when the input's is. */
  lemma {:induction false} CollapseRunsShape(s: string)
    ensures var r := CollapseRuns(s);
      && OverTokenAlphabet(r) && NoDoubleUnderscore(r)
      && (r == [] <==> s == [])
      && (r != [] ==> (IsTokenChar(r[0]) <==> IsTokenChar(s[0])))
    decreases |s|
  {
    if s != [] {
      if IsTokenChar(s[0]) {
        CollapseRunsShape(s[1..]);
      } else {
        SkipRunShape(s);
        CollapseRunsShape(SkipRun(s));
      }
    }
  }

  /** `replaceAll("^_+", "")`. */
  function DropLeadingUnderscores(t: string): (r: string)
    ensures |r| <= |t| && r == t[|t| - |r|..]
    ensures r == [] || r[0] != '_'
  {
    if t != [] && t[0] == '_' then DropLeadingUnderscores(t[1..]) else t
  }

  /** `replaceAll("_+$", "")`. */
  function DropTrailingUnderscores(t: string): (r: string)
    ensures |r| <= |t| && r == t[..|r|]
    ensures r == [] || r[|r| - 1] != '_'
  {
    if t != [] && t[|t| - 1] == '_' then DropTrailingUnderscores(t[..|t| - 1]) else t
  }

  /** `MappingReferenceCatalog.normalize`; `null` gives the empty token. */
  function Normalize(o: Option<string>): string {
    match o
    case None => ""
    case Some(s) => DropTrailingUnderscores(DropLeadingUnderscores(CollapseRuns(ToUpper(Trim(s)))))
  }

  /** A slice of a string over the token alphabet without `__` is again one. */
  lemma SliceKeepsShape(t: string, a: nat, b: nat)
    requires a <= b <= |t|
    requires OverTokenAlphabet(t) && NoDoubleUnderscore(t)
    ensures OverTokenAlphabet(t[a..b]) && NoDoubleUnderscore(t[a..b])
  {
    assert forall i :: 0 <= i < b - a ==> t[a..b][i] == t[a + i];
  }

  /** `normalize` returns "" for `null`; otherwise a canonical token,
      whatever the input. */
  lemma NormalizeIsCanonical(o: Option<string>)
    ensures o.None? ==> Normalize(o) == ""
    ensures IsCanonical(Normalize(o))
  {
    if o.Some? {
      var c := CollapseRuns(ToUpper(Trim(o.value)));
      CollapseRunsShape(ToUpper(Trim(o.value)));
      var l := DropLeadingUnderscores(c);
      SliceKeepsShape(c, |c| - |l|, |c|);
      var r := DropTrailingUnderscores(l);
      SliceKeepsShape(l, 0, |r|);
      assert r == Normalize(o);
    }
  }

  lemma {:induction false} CollapseCanonical(t: string)
    requires OverTokenAlphabet(t) && NoDoubleUnderscore(t)
    ensures CollapseRuns(t) == t
    decreases |t|
  {
    if t != [] {
      var rest := t[1..];
      assert OverTokenAlphabet(rest) && NoDoubleUnderscore(rest) by {
        assert forall i :: 0 <= i < |rest| ==> rest[i] == t[i + 1];
      }
      CollapseCanonical(rest);
      if !IsTokenChar(t[0]) {
        SkipSingleUnderscore(t);
      }
      assert t == [t[0]] + rest;
    }
  }

  lemma SkipSingleUnderscore(t: string)
    requires OverTokenAlphabet(t) && NoDoubleUnderscore(t)
    requires t != [] && !IsTokenChar(t[0])
    ensures t[0] == '_' && SkipRun(t) == t[1..]
  {
    if |t| > 1 {
      assert IsTokenChar(t[1]);
    }
  }

  /** A canonical token is left unchanged. */
  lemma CanonicalFixed(t: string)
    requires IsCanonical(t)
    ensures Normalize(Some(t)) == t
  {
    assert forall i :: 0 <= i < |t| ==> !IsTrimmable(t[i]);
    TrimIdentity(t);
    assert ToUpper(t) == t by {
      ToUpperAt(t);
    }
    CollapseCanonical(t);
    assert DropLeadingUnderscores(t) == t;
    assert DropTrailingUnderscores(t) == t;
  }

  /** `normalize(normalize(s)) == normalize(s)`. */
  lemma NormalizeIdempotent(o: Option<string>)
    ensures Normalize(Some(Normalize(o))) == Normalize(o)
  {
    NormalizeIsCanonical(o);
    CanonicalFixed(Normalize(o));
  }
}
