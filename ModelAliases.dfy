/** Per-model token limits and the alias keys `_store_model_aliases` adds to
    the limits cache, so that `claude-opus-4.5` and `claude-opus-4-5` (and
    other dot/hyphen spellings of a version) resolve to the same limits. */
module ModelAliases {
  import opened Strings

  datatype ModelLimits = ModelLimits(maxContextWindowTokens: int, maxPromptTokens: int, maxOutputTokens: int)

  type Cache = map<string, ModelLimits>

  /** The id with every `.` turned into `-`. */
  function DotsToHyphens(id: string): string {
    ReplaceChar(id, '.', '-')
  }

  /** The id with every `-` turned into `.`. */
  function HyphensToDots(id: string): string {
    ReplaceChar(id, '-', '.')
  }

  /** The version segments: the id split on both separators. */
  function Segments(id: string): seq<string> {
    Split(DotsToHyphens(id), '-')
  }

  /** Segment `i` starts with a digit. */
  predicate DigitStart(parts: seq<string>, i: nat)
    requires i < |parts|
  {
    parts[i] != "" && IsDigit(parts[i][0])
  }

  /** The spelling with hyphens before segment `i` and dots from there on. */
  function Variant(parts: seq<string>, i: nat): string
    requires i <= |parts|
  {
    Join("-", parts[..i]) + "." + Join(".", parts[i..])
  }

  /** The dot/hyphen alternative overwrites, unless it is the id itself. */
  function AddAlt(c: Cache, id: string, alt: string, lim: ModelLimits): Cache {
    if alt != id then c[alt := lim] else c
  }

  /** The dot/hyphen alternatives stored, the first pass of the alias generator. */
  function WithAlts(c: Cache, id: string, lim: ModelLimits): Cache {
    AddAlt(AddAlt(c, id, DotsToHyphens(id), lim), id, HyphensToDots(id), lim)
  }

  /** The variants for boundaries `1 .. n-1` added, each only when it is not
      the id and not already a key. */
  function VariantsUpTo(c: Cache, id: string, parts: seq<string>, lim: ModelLimits, n: nat): Cache
    requires n <= |parts|
  {
    if n <= 1 then c
    else
      var prev := VariantsUpTo(c, id, parts, lim, n - 1);
      var i := n - 1;
      if DigitStart(parts, i) && Variant(parts, i) != id && Variant(parts, i) !in prev then prev[Variant(parts, i) := lim]
      else prev
  }

  /** The cache after `_store_model_aliases(cache, id, lim)`. */
  function WithAliases(c: Cache, id: string, lim: ModelLimits): Cache {
    var parts := Segments(id);
    VariantsUpTo(WithAlts(c, id, lim), id, parts, lim, |parts|)
  }

  method StoreModelAliases(cache: Cache, modelId: string, lim: ModelLimits) returns (result: Cache)
    ensures result == WithAliases(cache, modelId, lim)
  {
    result := cache;
    var dashed := DotsToHyphens(modelId);
    if dashed != modelId {
      result := result[dashed := lim];
    }
    var dotted := HyphensToDots(modelId);
    if dotted != modelId {
      result := result[dotted := lim];
    }
    var parts := Split(dashed, '-');
    for i := 1 to |parts|
      invariant result == VariantsUpTo(WithAlts(cache, modelId, lim), modelId, parts, lim, i)
    {
      if parts[i] != "" && IsDigit(parts[i][0]) {
        var variant := Join("-", parts[..i]) + "." + Join(".", parts[i..]);
        if variant != modelId && variant !in result {
          result := result[variant := lim];
        }
      }
    }
  }

  /** Adding variants only adds keys, all bound to `lim`, never the id, and
      each one the variant of a digit-led boundary below `n`. */
  lemma {:induction false} VariantsOnlyAdd(c: Cache, id: string, parts: seq<string>, lim: ModelLimits, n: nat)
    requires n <= |parts|
    ensures var r := VariantsUpTo(c, id, parts, lim, n);
      && (forall k :: k in c ==> k in r && r[k] == c[k])
      && (forall k :: k in r && k !in c ==> r[k] == lim && k != id)
      && (forall k :: k in r && k !in c ==>
            exists i :: 1 <= i < n && DigitStart(parts, i) && k == Variant(parts, i))
    decreases n
  {
    if n > 1 {
      VariantsOnlyAdd(c, id, parts, lim, n - 1);
      var prev := VariantsUpTo(c, id, parts, lim, n - 1);
      var r := VariantsUpTo(c, id, parts, lim, n);
      forall k | k in r && k !in c
        ensures exists i :: 1 <= i < n && DigitStart(parts, i) && k == Variant(parts, i)
      {
        if k in prev {
          var i :| 1 <= i < n - 1 && DigitStart(parts, i) && k == Variant(parts, i);
        } else {
          assert DigitStart(parts, n - 1) && k == Variant(parts, n - 1);
        }
      }
    }
  }

  /** Every digit-led boundary's variant other than the id ends up a key. */
  lemma {:induction false} VariantsPresent(c: Cache, id: string, parts: seq<string>, lim: ModelLimits, n: nat)
    requires n <= |parts|
    ensures forall i :: 1 <= i < n && DigitStart(parts, i) && Variant(parts, i) != id ==>
      Variant(parts, i) in VariantsUpTo(c, id, parts, lim, n)
    decreases n
  {
    if n > 1 {
      VariantsPresent(c, id, parts, lim, n - 1);
    }
  }

  /** What the alias generator does to the cache: the id's own entry is
      never touched, the dot/hyphen alternatives are bound to `lim`
      (overwriting), every digit-led variant is a key afterwards, keys
      other than the alternatives keep their old value, and nothing but
      the alternatives and the variants is added. */
  lemma AliasesEffect(c: Cache, id: string, lim: ModelLimits)
    ensures var r := WithAliases(c, id, lim);
      && (id in r <==> id in c)
      && (id in c ==> r[id] == c[id])
      && (DotsToHyphens(id) != id ==> DotsToHyphens(id) in r && r[DotsToHyphens(id)] == lim)
      && (HyphensToDots(id) != id ==> HyphensToDots(id) in r && r[HyphensToDots(id)] == lim)
      && (forall k :: k in c ==> k in r)
      && (forall k :: k in c && k != DotsToHyphens(id) && k != HyphensToDots(id) ==> r[k] == c[k])
      && (forall k :: k in r && k !in c ==> r[k] == lim)
      && (forall k :: k in r && k !in c ==>
            || k == DotsToHyphens(id) || k == HyphensToDots(id)
            || exists i :: 1 <= i < |Segments(id)| && DigitStart(Segments(id), i) && k == Variant(Segments(id), i))
      && (forall i :: 1 <= i < |Segments(id)| && DigitStart(Segments(id), i) && Variant(Segments(id), i) != id ==>
            Variant(Segments(id), i) in r)
  {
    var parts := Segments(id);
    var w := WithAlts(c, id, lim);
    VariantsOnlyAdd(w, id, parts, lim, |parts|);
    VariantsPresent(w, id, parts, lim, |parts|);
  }

  /** An id with a dotted version gains its hyphenated spelling:
      `claude-opus-4.5` also answers to `claude-opus-4-5`. */
  lemma DottedIdGainsHyphenAlias(c: Cache, prefix: string, last: string, lim: ModelLimits)
    requires '.' !in prefix && '.' !in last
    ensures var r := WithAliases(c, prefix + "." + last, lim);
      prefix + "-" + last in r && r[prefix + "-" + last] == lim
  {
    var id := prefix + "." + last;
    assert DotsToHyphens(id) == prefix + "-" + last;
    assert DotsToHyphens(id)[|prefix|] != id[|prefix|];
    AliasesEffect(c, id, lim);
  }

  /** An id whose last segment is a hyphen-separated version number gains
      the dotted spelling of that boundary: `claude-opus-4-5` also answers
      to `claude-opus-4.5`. */
  lemma HyphenatedIdGainsDotAlias(c: Cache, prefix: string, last: string, lim: ModelLimits)
    requires '.' !in prefix && '.' !in last && '-' !in last
    requires last != "" && IsDigit(last[0])
    ensures prefix + "." + last in WithAliases(c, prefix + "-" + last, lim)
  {
    var id := prefix + "-" + last;
    assert DotsToHyphens(id) == id by {
      assert forall k :: 0 <= k < |id| ==> id[k] != '.';
    }
    var parts := Segments(id);
    assert id == prefix + ['-'] + last;
    SplitAround(prefix, last, '-');
    SplitNoSeparator(last, '-');
    assert parts == Split(prefix, '-') + [last];
    var i := |Split(prefix, '-')|;
    assert parts[..i] == Split(prefix, '-');
    assert parts[i..] == [last];
    JoinSplit(prefix, '-');
    assert Variant(parts, i) == prefix + "." + last;
    assert Variant(parts, i) != id by {
      assert Variant(parts, i)[|prefix|] == '.';
      assert id[|prefix|] == '-';
    }
    assert DigitStart(parts, i);
    AliasesEffect(c, id, lim);
  }

  /** Claude Opus 4.5, listed with a dotted version, also answers to the
      hyphenated id the model menu uses. */
  lemma ClaudeOpusDottedListing(c: Cache, lim: ModelLimits)
    ensures var r := WithAliases(c, "claude-opus-4.5", lim); "claude-opus-4-5" in r && r["claude-opus-4-5"] == lim
  {
    var prefix := "claude-opus-4";
    var dotted := "claude-opus-4.5";
    var hyphenated := "claude-opus-4-5";
    assert '.' !in prefix && '.' !in "5";
    assert dotted == prefix + "." + "5";
    assert hyphenated == prefix + "-" + "5";
    DottedIdGainsHyphenAlias(c, prefix, "5", lim);
  }

  /** Claude Opus 4.5, listed with a hyphenated version, also answers to
      the dotted id. */
  lemma ClaudeOpusHyphenatedListing(c: Cache, lim: ModelLimits)
    ensures "claude-opus-4.5" in WithAliases(c, "claude-opus-4-5", lim)
  {
    var prefix := "claude-opus-4";
    var dotted := "claude-opus-4.5";
    var hyphenated := "claude-opus-4-5";
    assert '.' !in prefix && '.' !in "5" && '-' !in "5" && IsDigit("5"[0]);
    assert dotted == prefix + "." + "5";
    assert hyphenated == prefix + "-" + "5";
    HyphenatedIdGainsDotAlias(c, prefix, "5", lim);
  }
}
