/**
 * What makeQuery promises, proved about its specification `Expand`: a template built from
 * literal text and `{key}` placeholders comes out with each placeholder replaced by the first
 * parameter whose key matches it ignoring case (strings quoted, numbers bare) or by NULL; the
 * raw form takes precedence and, being greedy, reaches to the last `{key}` on its line; a nil
 * parameter set leaves the trimmed template untouched.
 */
module TemplaterProperties {
  import opened Results
  import opened Text
  import opened Templater

  /** A template as the text between placeholders and the placeholders themselves. */
  datatype Piece = Lit(text: string) | Hole(key: string)

  function RenderPiece(p: Piece): string {
    match p
    case Lit(t) => t
    case Hole(k) => "{" + k + "}"
  }

  function Render(ps: seq<Piece>): string {
    if ps == [] then [] else RenderPiece(ps[0]) + Render(ps[1..])
  }

  predicate WordKey(k: string) {
    |k| > 0 && forall i :: 0 <= i < |k| ==> IsWordChar(k[i])
  }

  predicate NoOpenBrace(t: string) {
    forall i :: 0 <= i < |t| ==> t[i] != '{'
  }

  predicate NoAt(t: string) {
    forall i :: 0 <= i < |t| ==> t[i] != '@'
  }

  predicate PlainText(t: string) {
    NoOpenBrace(t) && NoAt(t)
  }

  /** Literal text holds no `{` and no `@`; placeholder keys are words. */
  predicate WellFormed(ps: seq<Piece>) {
    forall i :: 0 <= i < |ps| ==> match ps[i]
                                  case Lit(t) => PlainText(t)
                                  case Hole(k) => WordKey(k)
  }

  /** Keys are words and no rendered value holds a `{` or an `@`. */
  predicate SafeParams(params: Params) {
    forall i :: 0 <= i < |params| ==> WordKey(params[i].0) && PlainText(Quoted(params[i].1))
  }

  /** The value of the first parameter whose key matches `h` ignoring case. */
  function Lookup(params: Params, h: string): Option<Value>
    decreases |params|
  {
    if params == [] then None
    else if LowerAll(params[0].0) == LowerAll(h) then Some(params[0].1)
    else Lookup(params[1..], h)
  }

  /** Reference meaning of a filled-in template. */
  function Fill(ps: seq<Piece>, params: Params): string {
    if ps == [] then []
    else
      (match ps[0]
       case Lit(t) => t
       case Hole(k) => match Lookup(params, k) case Some(v) => Quoted(v) case None => "NULL")
      + Fill(ps[1..], params)
  }

  // Piecewise views of the substitution, used by the proofs.

  function SubstPiece(p: Piece, key: string, rep: string): Piece {
    match p
    case Hole(h) => if LowerAll(h) == LowerAll(key) then Lit(rep) else p
    case Lit(_) => p
  }

  function SubstOne(ps: seq<Piece>, key: string, rep: string): seq<Piece> {
    if ps == [] then [] else [SubstPiece(ps[0], key, rep)] + SubstOne(ps[1..], key, rep)
  }

  function ApplyPiece(p: Piece, params: Params): Piece {
    match p
    case Hole(h) => (match Lookup(params, h) case Some(v) => Lit(Quoted(v)) case None => p)
    case Lit(_) => p
  }

  function Apply(ps: seq<Piece>, params: Params): seq<Piece> {
    if ps == [] then [] else [ApplyPiece(ps[0], params)] + Apply(ps[1..], params)
  }

  function NullHoles(ps: seq<Piece>): seq<Piece> {
    if ps == [] then []
    else [if ps[0].Hole? then Lit("NULL") else ps[0]] + NullHoles(ps[1..])
  }

  lemma RenderCons(p: Piece, ps: seq<Piece>)
    ensures Render([p] + ps) == RenderPiece(p) + Render(ps)
  {
    assert ([p] + ps)[1..] == ps;
  }

  lemma {:induction false} RenderHasNoAt(ps: seq<Piece>)
    requires WellFormed(ps)
    ensures NoAt(Render(ps))
  {
    if ps != [] {
      RenderHasNoAt(ps[1..]);
    }
  }

  // Scanning over text that cannot start a match.

  lemma {:induction false} ReplaceQuotedSkipsPlain(t: string, z: string, key: string, rep: string)
    requires NoOpenBrace(t)
    ensures ReplaceQuoted(t + z, key, rep) == t + ReplaceQuoted(z, key, rep)
    decreases |t|
  {
    if t == [] {
      assert t + z == z;
    } else {
      assert (t + z)[1..] == t[1..] + z;
      ReplaceQuotedSkipsPlain(t[1..], z, key, rep);
      assert [t[0]] + t[1..] == t;
    }
  }

  lemma {:induction false} ReplaceRawSkipsPlain(t: string, z: string, key: string, rep: string)
    requires NoAt(t)
    ensures ReplaceRaw(t + z, key, rep) == t + ReplaceRaw(z, key, rep)
    decreases |t|
  {
    if t == [] {
      assert t + z == z;
    } else {
      assert (t + z)[1..] == t[1..] + z;
      ReplaceRawSkipsPlain(t[1..], z, key, rep);
      assert [t[0]] + t[1..] == t;
    }
  }

  lemma {:induction false} SweepSkipsPlain(t: string, z: string)
    requires NoOpenBrace(t)
    ensures ReplacePlaceholders(t + z) == t + ReplacePlaceholders(z)
    decreases |t|
  {
    if t == [] {
      assert t + z == z;
    } else {
      assert (t + z)[1..] == t[1..] + z;
      SweepSkipsPlain(t[1..], z);
      assert [t[0]] + t[1..] == t;
    }
  }

  /** `{h}` at the front of a text begins a match of `\{key\}` exactly when `h` is the key ignoring case. */
  lemma QuotedHole(h: string, z: string, key: string)
    requires WordKey(h) && WordKey(key)
    ensures QuotedPrefix("{" + h + "}" + z, key) <==> LowerAll(h) == LowerAll(key)
  {
    var s := "{" + h + "}" + z;
    assert s[0] == '{';
    assert forall i :: 0 <= i < |h| ==> s[i + 1] == h[i];
    assert s[|h| + 1] == '}';
    if LowerAll(h) == LowerAll(key) {
      assert s[1..|key| + 1] == h;
    } else if |key| < |h| {
      assert IsWordChar(s[|key| + 1]);
    } else if |key| > |h| {
      if |key| + 2 <= |s| {
        assert LowerAll(s[1..|key| + 1])[|h|] == '}';
        assert IsWordChar(LowerAll(key)[|h|]);
      }
    } else {
      assert s[1..|key| + 1] == h;
    }
  }

  /** `{h}` is replaced exactly when `h` is the key ignoring case. */
  lemma ReplaceQuotedHole(h: string, z: string, key: string, rep: string)
    requires WordKey(h) && WordKey(key)
    ensures ReplaceQuoted("{" + h + "}" + z, key, rep)
            == (if LowerAll(h) == LowerAll(key) then rep else "{" + h + "}") + ReplaceQuoted(z, key, rep)
  {
    if LowerAll(h) == LowerAll(key) {
      MatchingHoleReplaced(h, z, key, rep);
    } else {
      OtherHoleKept(h, z, key, rep);
    }
  }

  lemma MatchingHoleReplaced(h: string, z: string, key: string, rep: string)
    requires WordKey(h) && WordKey(key) && LowerAll(h) == LowerAll(key)
    ensures ReplaceQuoted("{" + h + "}" + z, key, rep) == rep + ReplaceQuoted(z, key, rep)
  {
    var s := "{" + h + "}" + z;
    QuotedHole(h, z, key);
    assert |key| == |h|;
    assert s[|key| + 2..] == z;
  }

  lemma OtherHoleKept(h: string, z: string, key: string, rep: string)
    requires WordKey(h) && WordKey(key) && LowerAll(h) != LowerAll(key)
    ensures ReplaceQuoted("{" + h + "}" + z, key, rep) == "{" + h + "}" + ReplaceQuoted(z, key, rep)
  {
    var s := "{" + h + "}" + z;
    QuotedHole(h, z, key);
    assert s[1..] == h + "}" + z;
    assert NoOpenBrace(h + "}");
    ReplaceQuotedSkipsPlain(h + "}", z, key, rep);
    assert ['{'] + (h + "}") == "{" + h + "}";
  }

  lemma SweepHole(h: string, z: string)
    requires WordKey(h)
    ensures ReplacePlaceholders("{" + h + "}" + z) == "NULL" + ReplacePlaceholders(z)
  {
    var s := "{" + h + "}" + z;
    assert s[1..] == h + "}" + z;
    var n := WordRun(s[1..]);
    assert forall i :: 0 <= i < |h| ==> s[1..][i] == h[i];
    assert s[1..][|h|] == '}';
    assert n == |h|;
    assert PlaceholderPrefix(s);
    assert s[n + 2..] == z;
  }

  lemma {:induction false} ReplaceQuotedRender(ps: seq<Piece>, key: string, rep: string)
    requires WellFormed(ps) && WordKey(key)
    ensures ReplaceQuoted(Render(ps), key, rep) == Render(SubstOne(ps, key, rep))
  {
    if ps != [] {
      ReplaceQuotedRender(ps[1..], key, rep);
      RenderCons(SubstPiece(ps[0], key, rep), SubstOne(ps[1..], key, rep));
      match ps[0]
      case Lit(t) =>
        ReplaceQuotedSkipsPlain(t, Render(ps[1..]), key, rep);
      case Hole(h) =>
        ReplaceQuotedHole(h, Render(ps[1..]), key, rep);
    }
  }

  lemma {:induction false} SweepRender(ps: seq<Piece>)
    requires WellFormed(ps)
    ensures ReplacePlaceholders(Render(ps)) == Render(NullHoles(ps))
  {
    if ps != [] {
      SweepRender(ps[1..]);
      RenderCons(if ps[0].Hole? then Lit("NULL") else ps[0], NullHoles(ps[1..]));
      match ps[0]
      case Lit(t) =>
        SweepSkipsPlain(t, Render(ps[1..]));
      case Hole(h) =>
        SweepHole(h, Render(ps[1..]));
    }
  }

  /** Without a match of `\{key\}` the replacement changes nothing. */
  lemma {:induction false} ReplaceQuotedIdentity(s: string, key: string, rep: string)
    requires !HasQuotedMatch(s, key)
    ensures ReplaceQuoted(s, key, rep) == s
    decreases |s|
  {
    if s != [] {
      assert s[0..] == s;
      assert !QuotedAt(s, key, 0);
      forall j | 0 <= j < |s[1..]|
        ensures !QuotedAt(s[1..], key, j)
      {
        assert s[1..][j..] == s[j + 1..];
        assert !QuotedAt(s, key, j + 1);
      }
      ReplaceQuotedIdentity(s[1..], key, rep);
      assert [s[0]] + s[1..] == s;
    }
  }

  /** Without a `{word}` placeholder the NULL sweep changes nothing. */
  lemma {:induction false} SweepIdentity(s: string)
    requires !HasPlaceholder(s)
    ensures ReplacePlaceholders(s) == s
    decreases |s|
  {
    if s != [] {
      assert s[0..] == s;
      assert !PlaceholderAt(s, 0);
      forall j | 0 <= j < |s[1..]|
        ensures !PlaceholderAt(s[1..], j)
      {
        assert s[1..][j..] == s[j + 1..];
        assert !PlaceholderAt(s, j + 1);
      }
      SweepIdentity(s[1..]);
      assert [s[0]] + s[1..] == s;
    }
  }

  lemma NoRawMatchWithoutAt(s: string, key: string)
    requires NoAt(s)
    ensures !HasRawMatch(s, key)
  {
    forall p | 0 <= p < |s|
      ensures RawMatchAt(s[p..], key).None?
    {
      assert s[p..][0] == s[p];
    }
  }

  lemma {:induction false} SubstOneWellFormed(ps: seq<Piece>, key: string, rep: string)
    requires WellFormed(ps) && PlainText(rep)
    ensures WellFormed(SubstOne(ps, key, rep))
  {
    if ps != [] {
      SubstOneWellFormed(ps[1..], key, rep);
      var r := SubstOne(ps, key, rep);
      assert r[1..] == SubstOne(ps[1..], key, rep);
      forall i | 0 <= i < |r|
        ensures match r[i] case Lit(t) => PlainText(t) case Hole(k) => WordKey(k)
      {
        if i > 0 {
          assert r[i] == r[1..][i - 1];
        }
      }
    }
  }

  /** One turn of the parameter loop on a well-formed template. */
  lemma SubstituteParamRender(ps: seq<Piece>, key: string, v: Value)
    requires WellFormed(ps) && WordKey(key) && PlainText(Quoted(v))
    ensures SubstituteParam(Render(ps), key, v) == Render(SubstOne(ps, key, Quoted(v)))
    ensures WellFormed(SubstOne(ps, key, Quoted(v)))
  {
    var s := Render(ps);
    RenderHasNoAt(ps);
    NoRawMatchWithoutAt(s, key);
    ReplaceQuotedRender(ps, key, Quoted(v));
    if !HasQuotedMatch(s, key) {
      ReplaceQuotedIdentity(s, key, Quoted(v));
    }
    SubstOneWellFormed(ps, key, Quoted(v));
  }

  lemma {:induction false} ApplyNothing(ps: seq<Piece>)
    ensures Apply(ps, []) == ps
  {
    if ps != [] {
      ApplyNothing(ps[1..]);
      assert [ps[0]] + ps[1..] == ps;
    }
  }

  lemma {:induction false} ApplyAfterSubstOne(ps: seq<Piece>, params: Params)
    requires |params| > 0
    ensures Apply(SubstOne(ps, params[0].0, Quoted(params[0].1)), params[1..]) == Apply(ps, params)
  {
    if ps != [] {
      ApplyAfterSubstOne(ps[1..], params);
      var q := SubstOne(ps, params[0].0, Quoted(params[0].1));
      assert q[0] == SubstPiece(ps[0], params[0].0, Quoted(params[0].1));
      assert q[1..] == SubstOne(ps[1..], params[0].0, Quoted(params[0].1));
    }
  }

  lemma {:induction false} SubstituteAllRender(ps: seq<Piece>, params: Params)
    requires WellFormed(ps) && SafeParams(params)
    ensures SubstituteAll(Render(ps), params) == Render(Apply(ps, params))
    decreases |params|
  {
    if params == [] {
      ApplyNothing(ps);
    } else {
      var (key, v) := params[0];
      SubstituteParamRender(ps, key, v);
      SubstituteAllRender(SubstOne(ps, key, Quoted(v)), params[1..]);
      ApplyAfterSubstOne(ps, params);
    }
  }

  lemma {:induction false} LookupSafe(params: Params, h: string)
    requires SafeParams(params)
    ensures Lookup(params, h).Some? ==> PlainText(Quoted(Lookup(params, h).value))
    decreases |params|
  {
    if params != [] && LowerAll(params[0].0) != LowerAll(h) {
      LookupSafe(params[1..], h);
    }
  }

  lemma {:induction false} ApplyWellFormed(ps: seq<Piece>, params: Params)
    requires WellFormed(ps) && SafeParams(params)
    ensures WellFormed(Apply(ps, params))
  {
    if ps != [] {
      ApplyWellFormed(ps[1..], params);
      if ps[0].Hole? {
        LookupSafe(params, ps[0].key);
      }
      var r := Apply(ps, params);
      assert r[1..] == Apply(ps[1..], params);
      forall i | 0 <= i < |r|
        ensures match r[i] case Lit(t) => PlainText(t) case Hole(k) => WordKey(k)
      {
        if i > 0 {
          assert r[i] == r[1..][i - 1];
        }
      }
    }
  }

  lemma {:induction false} FillIsRenderedApply(ps: seq<Piece>, params: Params)
    ensures Render(NullHoles(Apply(ps, params))) == Fill(ps, params)
  {
    if ps != [] {
      FillIsRenderedApply(ps[1..], params);
      var a := Apply(ps, params);
      assert a[0] == ApplyPiece(ps[0], params) && a[1..] == Apply(ps[1..], params);
      var n := NullHoles(a);
      assert n[1..] == NullHoles(a[1..]);
    }
  }

  /**
   * The templating contract: for a trimmed template whose literal text holds no `{` or `@`,
   * with word keys and values free of `{` and `@`, makeQuery replaces every `{key}` by the first
   * parameter matching it ignoring case — a string in double quotes, a number bare — and every
   * placeholder no parameter names by NULL.
   */
  lemma ExpandFillsTemplate(ps: seq<Piece>, params: Params)
    requires WellFormed(ps) && SafeParams(params) && Trim(Render(ps)) == Render(ps)
    ensures Expand(Render(ps), Some(params)) == Fill(ps, params)
  {
    SubstituteAllRender(ps, params);
    var s := SubstituteAll(Render(ps), params);
    ApplyWellFormed(ps, params);
    SweepRender(Apply(ps, params));
    if !HasPlaceholder(s) {
      SweepIdentity(s);
    }
    FillIsRenderedApply(ps, params);
  }

  /** Filling a well-formed template with safe values writes no `{`. */
  lemma {:induction false} FillHasNoOpenBrace(ps: seq<Piece>, params: Params)
    requires WellFormed(ps) && SafeParams(params)
    ensures NoOpenBrace(Fill(ps, params))
  {
    if ps != [] {
      FillHasNoOpenBrace(ps[1..], params);
      var first := match ps[0]
                   case Lit(t) => t
                   case Hole(k) => match Lookup(params, k) case Some(v) => Quoted(v) case None => "NULL";
      if ps[0].Hole? {
        LookupSafe(params, ps[0].key);
      }
      assert NoOpenBrace(first);
      var rest := Fill(ps[1..], params);
      assert Fill(ps, params) == first + rest;
      forall i | 0 <= i < |first + rest|
        ensures (first + rest)[i] != '{'
      {
        if i < |first| {
          assert (first + rest)[i] == first[i];
        } else {
          assert (first + rest)[i] == rest[i - |first|];
        }
      }
    }
  }

  /**
   * With a parameter set, no `{word}` placeholder is left in the statement: each becomes its
   * value or NULL.
   */
  lemma ExpandLeavesNoPlaceholder(ps: seq<Piece>, params: Params)
    requires WellFormed(ps) && SafeParams(params) && Trim(Render(ps)) == Render(ps)
    ensures !HasPlaceholder(Expand(Render(ps), Some(params)))
  {
    ExpandFillsTemplate(ps, params);
    var s := Fill(ps, params);
    FillHasNoOpenBrace(ps, params);
    forall j | 0 <= j < |s|
      ensures !PlaceholderAt(s, j)
    {
      assert s[j..][0] == s[j];
    }
  }

  /** A nil parameter set gives the trimmed template with its placeholders left in place. */
  lemma NilParamsKeepPlaceholders(ps: seq<Piece>)
    requires Trim(Render(ps)) == Render(ps)
    ensures Expand(Render(ps), None) == Render(ps)
  {
  }

  /** An empty parameter set still runs the NULL sweep: every placeholder becomes NULL. */
  lemma EmptyParamsNullEveryPlaceholder(ps: seq<Piece>)
    requires WellFormed(ps) && Trim(Render(ps)) == Render(ps)
    ensures Expand(Render(ps), Some([])) == Render(NullHoles(ps))
  {
    ExpandFillsTemplate(ps, []);
    FillIsRenderedApply(ps, []);
    ApplyNothing(ps);
  }

  /** Strings are inserted in double quotes; numbers bare, as text that reads back as the number. */
  lemma QuotedRendering(v: Value)
    ensures v.Str? ==> Quoted(v) == "\"" + Describe(v) + "\""
    ensures v.Num? ==> Quoted(v) == Describe(v) && '"' !in Quoted(v) && Quoted(v) != []
    ensures v.Num? ==> ParseInt(Quoted(v)) == v.n
  {
    if v.Num? {
      IntToStringRoundTrip(v.n);
    }
  }

  /** After `{k}` and up to the end of the line, no further `{key}` begins. */
  lemma {:induction false} NoQuotedAfterKey(z: string, j: nat, k: string, tail1: string, key: string)
    requires WordKey(key) && LowerAll(k) == LowerAll(key)
    requires NoOpenBrace(tail1)
    requires j + |k| + 2 + |tail1| <= |z|
    requires z[j..j + |k| + 2 + |tail1|] == "{" + k + "}" + tail1
    ensures forall i :: j < i <= j + |k| + 1 + |tail1| ==> !QuotedAt(z, key, i)
  {
    var w := z[j..j + |k| + 2 + |tail1|];
    forall i | j < i <= j + |k| + 1 + |tail1|
      ensures !QuotedAt(z, key, i)
    {
      assert z[i] == w[i - j];
      if i <= j + |k| {
        var x := i - j - 1;
        assert w[i - j] == k[x];
        assert LowerAll(k)[x] == LowerAll(key)[x];
        assert IsWordChar(Lower(key[x]));
      } else if i == j + |k| + 1 {
        assert w[i - j] == '}';
      } else {
        assert w[i - j] == tail1[i - j - |k| - 2];
      }
    }
  }

  /** A text that starts with `@` whose last `{key}` before the line's end begins at `j`. */
  lemma RawMatchIsLastOnLine(z: string, key: string, j: nat, p2: nat)
    requires z != [] && z[0] == '@' && 1 <= j <= LineEnd(z, 1) <= p2 <= |z|
    requires QuotedAt(z, key, j)
    requires forall i :: j < i <= p2 ==> !QuotedAt(z, key, i)
    ensures RawMatchAt(z, key) == Some(j)
  {
  }

  /** The line that starts after the `@` reaches at least to `{k}` and at most to `tail2`. */
  lemma RawLineEnd(mid: string, k: string, tail1: string, tail2: string)
    requires forall i :: 0 <= i < |mid| ==> !IsLineTerminator(mid[i])
    requires tail2 == [] || IsLineTerminator(tail2[0])
    ensures var z := "@" + mid + "{" + k + "}" + tail1 + tail2;
            1 + |mid| <= LineEnd(z, 1) <= 1 + |mid| + |k| + 2 + |tail1|
  {
    var z := "@" + mid + "{" + k + "}" + tail1 + tail2;
    var p2 := 1 + |mid| + |k| + 2 + |tail1|;
    assert forall i :: 1 <= i < 1 + |mid| ==> z[i] == mid[i - 1];
    assert tail2 != [] ==> z[p2] == tail2[0];
  }

  /** `{k}` after the `@` and `mid` is a match of `\{key\}`, and no later one starts before `tail2`. */
  lemma RawLineKey(mid: string, k: string, tail1: string, tail2: string, key: string)
    requires WordKey(key) && LowerAll(k) == LowerAll(key)
    requires NoOpenBrace(tail1)
    requires tail2 == [] || IsLineTerminator(tail2[0])
    ensures var z := "@" + mid + "{" + k + "}" + tail1 + tail2;
            var j := 1 + |mid|;
            && QuotedAt(z, key, j)
            && forall i :: j < i <= j + |k| + 2 + |tail1| ==> !QuotedAt(z, key, i)
  {
    var z := "@" + mid + "{" + k + "}" + tail1 + tail2;
    var j := 1 + |mid|;
    var p2 := j + |k| + 2 + |tail1|;
    assert |k| == |key|;
    assert QuotedAt(z, key, j) by {
      assert z[j..] == "{" + k + "}" + tail1 + tail2;
      assert z[j..][1..|key| + 1] == k;
    }
    assert z[j..p2] == "{" + k + "}" + tail1;
    NoQuotedAfterKey(z, j, k, tail1, key);
    if p2 < |z| {
      assert !QuotedAt(z, key, p2) by { assert z[p2..][0] == tail2[0]; }
    } else {
      assert !QuotedAt(z, key, p2);
    }
  }

  /** `@`, a line without terminators, `{k}`, brace-free text and then the line's end. */
  lemma RawMatchOfLine(mid: string, k: string, tail1: string, tail2: string, key: string)
    requires forall i :: 0 <= i < |mid| ==> !IsLineTerminator(mid[i])
    requires WordKey(key) && LowerAll(k) == LowerAll(key)
    requires NoOpenBrace(tail1)
    requires tail2 == [] || IsLineTerminator(tail2[0])
    ensures RawMatchAt("@" + mid + "{" + k + "}" + tail1 + tail2, key) == Some(1 + |mid|)
  {
    var z := "@" + mid + "{" + k + "}" + tail1 + tail2;
    RawLineEnd(mid, k, tail1, tail2);
    RawLineKey(mid, k, tail1, tail2, key);
    RawMatchIsLastOnLine(z, key, 1 + |mid|, 1 + |mid| + |k| + 2 + |tail1|);
  }

  /** What follows `{k}` on the raw line. */
  lemma RawLineTail(mid: string, k: string, tail1: string, tail2: string)
    ensures ("@" + mid + "{" + k + "}" + tail1 + tail2)[1 + |mid| + |k| + 2..] == tail1 + tail2
  {
    var front := "@" + mid + "{" + k + "}";
    assert "@" + mid + "{" + k + "}" + tail1 + tail2 == front + (tail1 + tail2);
  }

  /** A raw match at the front is replaced and the scan resumes after its `{key}`. */
  lemma ReplaceRawAtMatch(z: string, key: string, rep: string, j: nat)
    requires RawMatchAt(z, key) == Some(j)
    ensures j + |key| + 2 <= |z|
    ensures ReplaceRaw(z, key, rep) == rep + ReplaceRaw(z[j + |key| + 2..], key, rep)
  {
    assert QuotedPrefix(z[j..], key);
    ReplaceRawUnfolds(z, key, rep, j);
  }

  lemma ReplaceRawUnfolds(z: string, key: string, rep: string, j: nat)
    requires RawMatchAt(z, key) == Some(j) && j + |key| + 2 <= |z|
    ensures ReplaceRaw(z, key, rep) == rep + ReplaceRaw(z[j + |key| + 2..], key, rep)
  {
  }

  /** The match found by `RawMatchOfLine` is replaced, and the rest of the line kept. */
  lemma RawLineReplaced(mid: string, k: string, tail1: string, tail2: string, key: string, rep: string)
    requires forall i :: 0 <= i < |mid| ==> !IsLineTerminator(mid[i])
    requires WordKey(key) && LowerAll(k) == LowerAll(key)
    requires NoOpenBrace(tail1) && NoAt(tail1) && NoAt(tail2)
    requires tail2 == [] || IsLineTerminator(tail2[0])
    ensures ReplaceRaw("@" + mid + "{" + k + "}" + tail1 + tail2, key, rep) == rep + tail1 + tail2
  {
    var z := "@" + mid + "{" + k + "}" + tail1 + tail2;
    var j := 1 + |mid|;
    assert |k| == |key|;
    RawMatchOfLine(mid, k, tail1, tail2, key);
    calc {
      ReplaceRaw(z, key, rep);
    == { ReplaceRawAtMatch(z, key, rep, j); }
      rep + ReplaceRaw(z[j + |key| + 2..], key, rep);
    == { RawLineTail(mid, k, tail1, tail2); }
      rep + ReplaceRaw(tail1 + tail2, key, rep);
    == { ReplaceRawPlain(tail1 + tail2, key, rep); }
      rep + (tail1 + tail2);
    }
  }

  lemma ReplaceRawPlain(t: string, key: string, rep: string)
    requires NoAt(t)
    ensures ReplaceRaw(t, key, rep) == t
  {
    ReplaceRawSkipsPlain(t, [], key, rep);
    assert t + [] == t;
  }

  /**
   * The raw form wins and is greedy: when the first `@` of the text is followed on its line by
   * `{key}` (ignoring case), everything from that `@` to the LAST `{key}` of the line is replaced
   * by the bare value, and nothing else changes — the quoted form is not tried, so a `{key}` on a
   * later line is left for the NULL sweep.
   */
  lemma RawFormSpansToLastOnLine(a: string, mid: string, k: string, tail1: string, tail2: string,
                                 key: string, v: Value)
    requires NoAt(a)
    requires forall i :: 0 <= i < |mid| ==> !IsLineTerminator(mid[i])
    requires WordKey(key) && LowerAll(k) == LowerAll(key)
    requires NoOpenBrace(tail1) && NoAt(tail1) && NoAt(tail2)
    requires tail2 == [] || IsLineTerminator(tail2[0])
    ensures SubstituteParam(a + ("@" + mid + "{" + k + "}" + tail1 + tail2), key, v)
            == a + (Describe(v) + tail1 + tail2)
  {
    var z := "@" + mid + "{" + k + "}" + tail1 + tail2;
    var s := a + z;
    var rep := Describe(v);
    assert ReplaceRaw(s, key, rep) == a + (rep + tail1 + tail2) by {
      RawLineReplaced(mid, k, tail1, tail2, key, rep);
      ReplaceRawSkipsPlain(a, z, key, rep);
    }
    assert HasRawMatch(s, key) by {
      RawMatchOfLine(mid, k, tail1, tail2, key);
      assert s[|a|..] == z;
      assert RawAt(s, key, |a|);
    }
  }

  /** The raw form ending its line (or the text): the whole `@…{key}` becomes the bare value. */
  lemma RawFormAtLineEnd(a: string, mid: string, k: string, rest: string, key: string, v: Value)
    requires NoAt(a) && NoAt(rest)
    requires forall i :: 0 <= i < |mid| ==> !IsLineTerminator(mid[i])
    requires WordKey(key) && LowerAll(k) == LowerAll(key)
    requires rest == [] || IsLineTerminator(rest[0])
    ensures SubstituteParam(a + ("@" + mid + "{" + k + "}" + rest), key, v) == a + (Describe(v) + rest)
  {
    var front := "@" + mid + "{" + k + "}";
    calc {
      SubstituteParam(a + (front + rest), key, v);
    == { assert front + rest == front + "" + rest; }
      SubstituteParam(a + (front + "" + rest), key, v);
    == { RawFormSpansToLastOnLine(a, mid, k, "", rest, key, v); }
      a + (Describe(v) + "" + rest);
    == { assert Describe(v) + "" == Describe(v); }
      a + (Describe(v) + rest);
    }
  }

  /** `@{c}` twice on one line: the greedy match swallows the text between them. */
  lemma GreedyRawMatchSwallowsText(template: string, head: string, mid: string, key: string)
    requires head == "SELECT " && mid == "{c} FROM t ORDER BY @" && key == "c"
    requires template == head + ("@" + mid + "{" + key + "}")
    ensures SubstituteParam(template, key, Str("name")) == head + "name"
  {
    RawFormAtLineEnd(head, mid, key, "", key, Str("name"));
    assert "@" + mid + "{" + key + "}" + "" == "@" + mid + "{" + key + "}";
  }

  /** Raw and quoted forms of one key: the raw one is substituted and the quoted one is not. */
  lemma RawFormTakesPrecedence(template: string, head: string, nextLine: string, key: string)
    requires head == "UPDATE t SET a = " && nextLine == "\nWHERE b = {v}" && key == "v"
    requires template == head + ("@" + "{" + key + "}" + nextLine)
    ensures SubstituteParam(template, key, Str("x")) == head + ("x" + nextLine)
  {
    RawFormAtLineEnd(head, "", key, nextLine, key, Str("x"));
    assert "@" + "" == "@";
  }

  /**
   * When every `{` of the text opens a `{word}` placeholder, the NULL sweep leaves no `{` and so
   * no placeholder behind.
   */
  lemma {:induction false} SweepLeavesNoPlaceholder(s: string)
    requires forall i :: 0 <= i < |s| && s[i] == '{' ==> PlaceholderPrefix(s[i..])
    ensures NoOpenBrace(ReplacePlaceholders(s))
    ensures !HasPlaceholder(ReplacePlaceholders(s))
    decreases |s|
  {
    if s != [] {
      assert s[0..] == s;
      var rest := if PlaceholderPrefix(s) then s[WordRun(s[1..]) + 2..] else s[1..];
      var d := |s| - |rest|;
      forall i | 0 <= i < |rest| && rest[i] == '{'
        ensures PlaceholderPrefix(rest[i..])
      {
        assert rest[i..] == s[i + d..];
      }
      SweepLeavesNoPlaceholder(rest);
    }
    var r := ReplacePlaceholders(s);
    forall j | 0 <= j < |r|
      ensures !PlaceholderPrefix(r[j..])
    {
      assert r[j..][0] == r[j];
    }
  }

  /** The sweep is one pass: `{{x}}` becomes `{NULL}`, itself a placeholder. */
  lemma SweepCanLeaveAPlaceholder()
    ensures ReplacePlaceholders("{{x}}") == "{NULL}"
    ensures HasPlaceholder("{NULL}")
  {
    var s := "{{x}}";
    assert WordRun(s[1..]) == 0;
    assert s[1..] == "{x}}";
    assert WordRun("x}}") == 1;
    assert PlaceholderPrefix("{x}}");
    assert "{x}}"[3..] == "}";
    assert ReplacePlaceholders("}") == "}";
    assert "{NULL}"[0..] == "{NULL}";
    assert WordRun("NULL}") == 4;
    assert PlaceholderAt("{NULL}", 0);
  }

  /** A value whose own text is plain stays plain once rendered for the quoted form. */
  lemma QuotedIsPlain(v: Value)
    requires v.Str? ==> PlainText(v.s)
    ensures PlainText(Quoted(v))
  {
    match v
    case Str(s) =>
      var q := Quoted(v);
      assert forall i :: 0 < i < |q| - 1 ==> q[i] == s[i - 1];
    case Num(n) =>
      IntToStringRoundTrip(n);
  }

  function InsertPieces(head: string, sep: string, close: string): seq<Piece> {
    [Lit(head), Hole("name"), Lit(sep), Hole("age"), Lit(close)]
  }

  lemma RenderFive(p0: Piece, p1: Piece, p2: Piece, p3: Piece, p4: Piece)
    ensures Render([p0, p1, p2, p3, p4])
            == RenderPiece(p0) + (RenderPiece(p1) + (RenderPiece(p2) + (RenderPiece(p3) + RenderPiece(p4))))
  {
    calc {
      Render([p0, p1, p2, p3, p4]);
    == { assert [p0, p1, p2, p3, p4] == [p0] + [p1, p2, p3, p4]; RenderCons(p0, [p1, p2, p3, p4]); }
      RenderPiece(p0) + Render([p1, p2, p3, p4]);
    == { assert [p1, p2, p3, p4] == [p1] + [p2, p3, p4]; RenderCons(p1, [p2, p3, p4]); }
      RenderPiece(p0) + (RenderPiece(p1) + Render([p2, p3, p4]));
    == { assert [p2, p3, p4] == [p2] + [p3, p4]; RenderCons(p2, [p3, p4]); }
      RenderPiece(p0) + (RenderPiece(p1) + (RenderPiece(p2) + Render([p3, p4])));
    == { assert [p3, p4] == [p3] + [p4]; RenderCons(p3, [p4]); RenderCons(p4, []); assert [p4] + [] == [p4]; }
      RenderPiece(p0) + (RenderPiece(p1) + (RenderPiece(p2) + (RenderPiece(p3) + (RenderPiece(p4) + []))));
    == { assert RenderPiece(p4) + [] == RenderPiece(p4); }
      RenderPiece(p0) + (RenderPiece(p1) + (RenderPiece(p2) + (RenderPiece(p3) + RenderPiece(p4))));
    }
  }

  lemma InsertRender(head: string, sep: string, close: string)
    ensures Render(InsertPieces(head, sep, close)) == head + "{name}" + sep + "{age}" + close
  {
    RenderFive(Lit(head), Hole("name"), Lit(sep), Hole("age"), Lit(close));
    Reassociate(head, "{name}", sep, "{age}", close);
  }

  lemma FillCons(p: Piece, ps: seq<Piece>, params: Params)
    ensures Fill([p] + ps, params) == Fill([p], params) + Fill(ps, params)
  {
    assert ([p] + ps)[1..] == ps;
    assert [p][1..] == [];
  }

  lemma FillHole(k: string, params: Params, v: Value)
    requires Lookup(params, k) == Some(v)
    ensures Fill([Hole(k)], params) == Quoted(v)
  {
    assert [Hole(k)][1..] == [];
  }

  lemma FillFive(p0: Piece, p1: Piece, p2: Piece, p3: Piece, p4: Piece, params: Params)
    ensures Fill([p0, p1, p2, p3, p4], params)
            == Fill([p0], params) + (Fill([p1], params) + (Fill([p2], params) + (Fill([p3], params) + Fill([p4], params))))
  {
    calc {
      Fill([p0, p1, p2, p3, p4], params);
    == { assert [p0, p1, p2, p3, p4] == [p0] + [p1, p2, p3, p4]; FillCons(p0, [p1, p2, p3, p4], params); }
      Fill([p0], params) + Fill([p1, p2, p3, p4], params);
    == { assert [p1, p2, p3, p4] == [p1] + [p2, p3, p4]; FillCons(p1, [p2, p3, p4], params); }
      Fill([p0], params) + (Fill([p1], params) + Fill([p2, p3, p4], params));
    == { assert [p2, p3, p4] == [p2] + [p3, p4]; FillCons(p2, [p3, p4], params); }
      Fill([p0], params) + (Fill([p1], params) + (Fill([p2], params) + Fill([p3, p4], params)));
    == { assert [p3, p4] == [p3] + [p4]; FillCons(p3, [p4], params); }
      Fill([p0], params) + (Fill([p1], params) + (Fill([p2], params) + (Fill([p3], params) + Fill([p4], params))));
    }
  }

  lemma FillLit(t: string, params: Params)
    ensures Fill([Lit(t)], params) == t
  {
    assert [Lit(t)][1..] == [];
  }

  lemma InsertFill(head: string, sep: string, close: string, name: string, age: int)
    ensures Fill(InsertPieces(head, sep, close), [("name", Str(name)), ("age", Num(age))])
            == head + ("\"" + name + "\"") + sep + IntToString(age) + close
  {
    var params: Params := [("name", Str(name)), ("age", Num(age))];
    assert Lookup(params, "name") == Some(Str(name));
    assert Lookup(params, "age") == Some(Num(age)) by {
      assert LowerAll("name") != LowerAll("age") by { assert |LowerAll("name")| != |LowerAll("age")|; }
    }
    var q := "\"" + name + "\"";
    calc {
      Fill(InsertPieces(head, sep, close), params);
    == { FillFive(Lit(head), Hole("name"), Lit(sep), Hole("age"), Lit(close), params); }
      Fill([Lit(head)], params) + (Fill([Hole("name")], params) + (Fill([Lit(sep)], params)
        + (Fill([Hole("age")], params) + Fill([Lit(close)], params))));
    == { FillLit(head, params); FillLit(sep, params); FillLit(close, params);
         FillHole("name", params, Str(name)); FillHole("age", params, Num(age)); }
      head + (q + (sep + (IntToString(age) + close)));
    == { Reassociate(head, q, sep, IntToString(age), close); }
      head + q + sep + IntToString(age) + close;
    }
  }

  /** Proof helper: regroups a concatenation of five strings. */
  lemma Reassociate(a: string, b: string, c: string, d: string, e: string)
    ensures a + (b + (c + (d + e))) == a + b + c + d + e
  {
  }

  /**
   * An insert statement with a name and an age: the string value is inserted in double quotes
   * and the integer bare, whatever plain text surrounds the placeholders.
   */
  lemma InsertScenario(head: string, sep: string, close: string, name: string, age: int)
    requires PlainText(head) && PlainText(sep) && PlainText(close) && PlainText(name)
    requires head != [] && !IsTrimSpace(head[0]) && close != [] && !IsTrimSpace(close[|close| - 1])
    ensures Expand(head + "{name}" + sep + "{age}" + close, Some([("name", Str(name)), ("age", Num(age))]))
            == head + ("\"" + name + "\"") + sep + IntToString(age) + close
  {
    var params: Params := [("name", Str(name)), ("age", Num(age))];
    var ps := InsertPieces(head, sep, close);
    InsertRender(head, sep, close);
    InsertTemplateTrimmed(head, sep, close);
    InsertWellFormed(head, sep, close);
    InsertParamsSafe(name, age);
    ExpandFillsTemplate(ps, params);
    InsertFill(head, sep, close, name, age);
  }

  lemma InsertTemplateTrimmed(head: string, sep: string, close: string)
    requires head != [] && !IsTrimSpace(head[0]) && close != [] && !IsTrimSpace(close[|close| - 1])
    ensures Trim(head + "{name}" + sep + "{age}" + close) == head + "{name}" + sep + "{age}" + close
  {
    var rest := "{name}" + sep + "{age}";
    var template := head + rest + close;
    assert head + "{name}" + sep + "{age}" + close == template;
    assert template[0] == head[0];
    assert template[|template| - 1] == close[|close| - 1];
    TrimKeepsTrimmed(template);
  }

  lemma InsertWellFormed(head: string, sep: string, close: string)
    requires PlainText(head) && PlainText(sep) && PlainText(close)
    ensures WellFormed(InsertPieces(head, sep, close))
  {
    assert WordKey("name") && WordKey("age");
  }

  lemma InsertParamsSafe(name: string, age: int)
    requires PlainText(name)
    ensures SafeParams([("name", Str(name)), ("age", Num(age))])
  {
    QuotedIsPlain(Str(name));
    QuotedIsPlain(Num(age));
    assert WordKey("name") && WordKey("age");
  }
}
