/**
 * SQLiteMapper.makeQuery (SQLiteMapper.swift, lines 39-74): the template is trimmed, then each
 * parameter is substituted, raw form `@…{key}` first and quoted form `{key}` otherwise, and at
 * the end every `{word}` placeholder still present becomes `NULL`. The three regular expressions
 * are modelled as the string scans they perform.
 */
module Templater {
  import opened Results
  import opened Text

  /** A parameter value: an NSString, or an NSNumber holding an integer. */
  datatype Value = Str(s: string) | Num(n: int)

  /** The parameter dictionary as its entries, in the order the dictionary enumerates them. */
  type Params = seq<(string, Value)>

  /** `String(value)`: the text the raw form inserts. */
  function Describe(v: Value): string {
    match v
    case Str(s) => s
    case Num(n) => IntToString(n)
  }

  /** The text the quoted form inserts: a string in double quotes, anything else bare. */
  function Quoted(v: Value): string {
    match v
    case Str(s) => "\"" + s + "\""
    case Num(n) => IntToString(n)
  }

  // The quoted pattern `\{key\}`, case-insensitive.

  predicate QuotedPrefix(s: string, key: string) {
    |key| + 2 <= |s| && s[0] == '{' && LowerAll(s[1..|key| + 1]) == LowerAll(key) && s[|key| + 1] == '}'
  }

  /** A match of `\{key\}` begins at position `j`. */
  predicate QuotedAt(s: string, key: string, j: nat)
    requires j <= |s|
  {
    QuotedPrefix(s[j..], key)
  }

  predicate HasQuotedMatch(s: string, key: string) {
    exists j | 0 <= j < |s| :: QuotedAt(s, key, j)
  }

  /** Every match of `\{key\}`, scanning left to right, replaced by `rep`. */
  function ReplaceQuoted(s: string, key: string, rep: string): string
    decreases |s|
  {
    if s == [] then []
    else if QuotedPrefix(s, key) then rep + ReplaceQuoted(s[|key| + 2..], key, rep)
    else [s[0]] + ReplaceQuoted(s[1..], key, rep)
  }

  // The raw pattern `@(.*|)\{key\}`, case-insensitive: `.*` is greedy and stops at a line end.

  /** The first line terminator at or after `i`, or |s|. */
  function LineEnd(s: string, i: nat): (e: nat)
    requires i <= |s|
    ensures i <= e <= |s|
    ensures forall k :: i <= k < e ==> !IsLineTerminator(s[k])
    ensures e < |s| ==> IsLineTerminator(s[e])
    decreases |s| - i
  {
    if i == |s| || IsLineTerminator(s[i]) then i else LineEnd(s, i + 1)
  }

  /** The last position in lo..hi where `{key}` begins. */
  function LastQuoted(s: string, key: string, lo: nat, hi: nat): (r: Option<nat>)
    requires hi <= |s|
    ensures r.Some? ==> lo <= r.value <= hi && QuotedAt(s, key, r.value)
    ensures r.Some? ==> forall j :: r.value < j <= hi ==> !QuotedAt(s, key, j)
    ensures r.None? ==> forall j :: lo <= j <= hi ==> !QuotedAt(s, key, j)
    decreases hi
  {
    if hi < lo then None
    else if QuotedAt(s, key, hi) then Some(hi)
    else if hi == 0 then None
    else LastQuoted(s, key, lo, hi - 1)
  }

  /**
   * A raw match that starts at the front of `s`: `s` starts with `@` and `{key}` occurs later on
   * the same line; the result is where the LAST such `{key}` begins.
   */
  function RawMatchAt(s: string, key: string): (r: Option<nat>)
    ensures r.Some? ==> 1 <= r.value <= |s| && QuotedAt(s, key, r.value)
  {
    if s != [] && s[0] == '@' then LastQuoted(s, key, 1, LineEnd(s, 1)) else None
  }

  /** A raw match begins at position `p`. */
  predicate RawAt(s: string, key: string, p: nat)
    requires p <= |s|
  {
    RawMatchAt(s[p..], key).Some?
  }

  predicate HasRawMatch(s: string, key: string) {
    exists p | 0 <= p < |s| :: RawAt(s, key, p)
  }

  /** Every match of `@(.*|)\{key\}`, scanning left to right, replaced by `rep`. */
  function ReplaceRaw(s: string, key: string, rep: string): string
    decreases |s|
  {
    if s == [] then []
    else match RawMatchAt(s, key)
      case Some(j) => rep + ReplaceRaw(s[j + |key| + 2..], key, rep)
      case None => [s[0]] + ReplaceRaw(s[1..], key, rep)
  }

  // The final pattern `\{(\w+)\}`.

  /** Length of the run of word characters at the front of `s`. */
  function WordRun(s: string): (n: nat)
    ensures n <= |s|
    ensures forall k :: 0 <= k < n ==> IsWordChar(s[k])
    ensures n < |s| ==> !IsWordChar(s[n])
  {
    if s == [] || !IsWordChar(s[0]) then 0 else 1 + WordRun(s[1..])
  }

  predicate PlaceholderPrefix(s: string) {
    |s| >= 3 && s[0] == '{' && 0 < WordRun(s[1..]) && WordRun(s[1..]) + 1 < |s| && s[WordRun(s[1..]) + 1] == '}'
  }

  /** A `{word}` placeholder begins at position `j`. */
  predicate PlaceholderAt(s: string, j: nat)
    requires j <= |s|
  {
    PlaceholderPrefix(s[j..])
  }

  predicate HasPlaceholder(s: string) {
    exists j | 0 <= j < |s| :: PlaceholderAt(s, j)
  }

  /** Every `{word}`, scanning left to right, replaced by `NULL`. */
  function ReplacePlaceholders(s: string): string
    decreases |s|
  {
    if s == [] then []
    else if PlaceholderPrefix(s) then "NULL" + ReplacePlaceholders(s[WordRun(s[1..]) + 2..])
    else [s[0]] + ReplacePlaceholders(s[1..])
  }

  // makeQuery itself.

  /** One turn of the parameter loop: raw form if it matches, else quoted form if it matches. */
  function SubstituteParam(s: string, key: string, v: Value): string {
    if HasRawMatch(s, key) then ReplaceRaw(s, key, Describe(v))
    else if HasQuotedMatch(s, key) then ReplaceQuoted(s, key, Quoted(v))
    else s
  }

  function SubstituteAll(s: string, params: Params): string
    decreases |params|
  {
    if params == [] then s else SubstituteAll(SubstituteParam(s, params[0].0, params[0].1), params[1..])
  }

  /** What makeQuery returns: with no parameter dictionary only the trimmed template. */
  function Expand(raw: string, param: Option<Params>): string {
    var t := Trim(raw);
    match param
    case None => t
    case Some(ps) =>
      var s := SubstituteAll(t, ps);
      if HasPlaceholder(s) then ReplacePlaceholders(s) else s
  }

  method MakeQuery(raw: string, param: Option<Params>) returns (result: string)
    ensures result == Expand(raw, param)
  {
    result := Trim(raw);
    if param.None? {
      return;
    }
    var ps := param.value;
    for i := 0 to |ps|
      invariant SubstituteAll(result, ps[i..]) == SubstituteAll(Trim(raw), ps)
    {
      var (key, value) := ps[i];
      assert ps[i..][1..] == ps[i + 1..];
      result := SubstituteParam(result, key, value);
    }
    if HasPlaceholder(result) {
      result := ReplacePlaceholders(result);
    }
  }
}
