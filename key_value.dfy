/**
 * The key/value patch parser of the session engine (`parseKeyValueString`).
 *
 * A status message is a list of space-separated tokens. A token with exactly
 * one '=' is an attribute `key=value`; a token with no '=' is a bare word;
 * a token with two or more '=' is ignored. The first `words` bare words are
 * skipped and every later one replaces the object identifier, so the
 * identifier is the LAST bare word past the threshold.
 */
module KeyValue {
  import opened Wrappers
  import opened GoStrings

  /** The two errors `parseKeyValueString` can return. */
  datatype KvError = NoTokensFound | NotAKeyValueList

  /** A parsed patch: the error, the attribute map and the object identifier. */
  datatype Patch = Patch(err: Option<KvError>, attrs: map<string, string>, id: string)

  /** A token that splits on '=' into exactly two parts: one `key=value` attribute. */
  predicate IsPair(token: string)
  {
    |Split(token, '=')| == 2
  }

  /** A token that does not split on '=' at all: a bare word. */
  predicate IsBare(token: string)
  {
    |Split(token, '=')| == 1
  }

  function Key(token: string): string
    requires IsPair(token)
  {
    Split(token, '=')[0]
  }

  function Value(token: string): string
    requires IsPair(token)
  {
    Split(token, '=')[1]
  }

  /** Pairs are the tokens with exactly one '=', bare words those with none. */
  lemma PairAndBareByCount(token: string)
    ensures IsPair(token) <==> Count(token, '=') == 1
    ensures IsBare(token) <==> '=' !in token
  {
    SplitCount(token, '=');
  }

  /** A pair is its key and its value around its one '='. */
  lemma PairShape(token: string)
    requires IsPair(token)
    ensures token == Key(token) + "=" + Value(token)
    ensures '=' !in Key(token) && '=' !in Value(token)
  {
    JoinSplit(token, '=');
    var parts := Split(token, '=');
    assert Join(parts, '=') == parts[0] + ['='] + Join(parts[1..], '=');
  }

  /** The attribute map built from `tokens`, left to right, later keys overwriting earlier ones. */
  function PairsOf(tokens: seq<string>): map<string, string>
    decreases |tokens|
  {
    if |tokens| == 0 then map[]
    else
      var m := PairsOf(tokens[..|tokens| - 1]);
      var last := tokens[|tokens| - 1];
      if IsPair(last) then m[Key(last) := Value(last)] else m
  }

  /** The bare words among `tokens`, in order. */
  function BareTokens(tokens: seq<string>): (bare: seq<string>)
    ensures |bare| <= |tokens|
    ensures forall i :: 0 <= i < |bare| ==> IsBare(bare[i])
    decreases |tokens|
  {
    if |tokens| == 0 then []
    else
      var last := tokens[|tokens| - 1];
      BareTokens(tokens[..|tokens| - 1]) + (if IsBare(last) then [last] else [])
  }

  /** The identifier: the last bare word once `words` of them have been skipped, else "". */
  function Identifier(tokens: seq<string>, words: int): string
  {
    var bare := BareTokens(tokens);
    if 0 <= words < |bare| then bare[|bare| - 1] else ""
  }

  /** What `parseKeyValueString(in, words)` returns. */
  function ParseKeyValue(s: string, words: int): (p: Patch)
    ensures p.err.Some? <==> '=' !in s
    ensures p.err != Some(NoTokensFound)
    ensures p.err.Some? ==> p.attrs == map[] && p.id == ""
  {
    if '=' !in s then Patch(Some(NotAKeyValueList), map[], "")
    else
      var tokens := Split(s, ' ');
      Patch(None, PairsOf(tokens), Identifier(tokens, words))
  }

  /** A key is in the attribute map exactly when some pair token carries it. */
  lemma {:induction false} PairsOfKeys(tokens: seq<string>, k: string)
    ensures k in PairsOf(tokens) <==> exists i :: 0 <= i < |tokens| && IsPair(tokens[i]) && Key(tokens[i]) == k
    decreases |tokens|
  {
    if |tokens| > 0 {
      var init := tokens[..|tokens| - 1];
      PairsOfKeys(init, k);
      if exists i :: 0 <= i < |init| && IsPair(init[i]) && Key(init[i]) == k {
        var i :| 0 <= i < |init| && IsPair(init[i]) && Key(init[i]) == k;
        assert tokens[i] == init[i];
      }
      if exists i :: 0 <= i < |tokens| && IsPair(tokens[i]) && Key(tokens[i]) == k {
        var i :| 0 <= i < |tokens| && IsPair(tokens[i]) && Key(tokens[i]) == k;
        if i < |init| {
          assert init[i] == tokens[i];
        }
      }
    }
  }

  /**
   * Last one wins: the value stored for a key is the value of the last pair
   * token carrying that key.
   */
  lemma {:induction false} PairsOfLastWins(tokens: seq<string>, i: int)
    requires 0 <= i < |tokens| && IsPair(tokens[i])
    requires forall j :: i < j < |tokens| && IsPair(tokens[j]) ==> Key(tokens[j]) != Key(tokens[i])
    ensures Key(tokens[i]) in PairsOf(tokens) && PairsOf(tokens)[Key(tokens[i])] == Value(tokens[i])
    decreases |tokens|
  {
    var init := tokens[..|tokens| - 1];
    if i < |tokens| - 1 {
      assert init[i] == tokens[i];
      forall j | i < j < |init| && IsPair(init[j]) ensures Key(init[j]) != Key(init[i]) {
        assert init[j] == tokens[j];
      }
      PairsOfLastWins(init, i);
    }
  }

  /** The number of bare words in `tokens`. */
  function BareCount(tokens: seq<string>): nat
  {
    |BareTokens(tokens)|
  }

  lemma BareTokensAppend(tokens: seq<string>, t: string)
    ensures BareTokens(tokens + [t]) == BareTokens(tokens) + (if IsBare(t) then [t] else [])
  {
    assert (tokens + [t])[..|tokens|] == tokens;
  }

  /** The bare words are exactly the tokens that are bare. */
  lemma {:induction false} BareTokensMembers(tokens: seq<string>)
    ensures forall t :: t in BareTokens(tokens) <==> t in tokens && IsBare(t)
    decreases |tokens|
  {
    if |tokens| > 0 {
      var init := tokens[..|tokens| - 1];
      BareTokensMembers(init);
      assert tokens == init + [tokens[|tokens| - 1]];
    }
  }

  /** A list is what comes before index `i`, the element at `i`, and what comes after. */
  lemma SliceAround(tokens: seq<string>, i: int)
    requires 0 <= i < |tokens|
    ensures tokens == tokens[..i] + ([tokens[i]] + tokens[i + 1..])
  {
  }

  /** The bare words of two token lists in a row are those of the first, then those of the second. */
  lemma {:induction false} BareTokensConcat(a: seq<string>, b: seq<string>)
    ensures BareTokens(a + b) == BareTokens(a) + BareTokens(b)
    decreases |b|
  {
    if |b| == 0 {
      assert a + b == a;
    } else {
      var init, last := b[..|b| - 1], b[|b| - 1];
      var tail := if IsBare(last) then [last] else [];
      BareTokensConcat(a, init);
      assert (a + b)[..|a + b| - 1] == a + init;
      assert (a + b)[|a + b| - 1] == last;
      assert BareTokens(a + b) == BareTokens(a + init) + tail;
      assert BareTokens(b) == BareTokens(init) + tail;
    }
  }

  /**
   * Every bare token is kept, in order: the bare token at index `i` is the
   * bare word numbered by how many bare tokens come before it.
   */
  lemma BareTokenPosition(tokens: seq<string>, i: int)
    requires 0 <= i < |tokens| && IsBare(tokens[i])
    ensures BareCount(tokens[..i]) < BareCount(tokens)
    ensures BareTokens(tokens)[BareCount(tokens[..i])] == tokens[i]
  {
    var before, token, after := tokens[..i], tokens[i], tokens[i + 1..];
    SliceAround(tokens, i);
    BareTokensConcat(before, [token] + after);
    BareTokensConcat([token], after);
    assert BareTokens([token]) == [token] by {
      assert [token][..0] == [];
    }
    assert BareTokens(tokens) == BareTokens(before) + ([token] + BareTokens(after));
  }

  /** One more token: how the map, the bare-word count and the identifier change. */
  lemma Append(tokens: seq<string>, t: string, words: int)
    ensures var kv := Split(t, '=');
      PairsOf(tokens + [t]) == if |kv| == 2 then PairsOf(tokens)[kv[0] := kv[1]] else PairsOf(tokens)
    ensures var kv := Split(t, '=');
      BareCount(tokens + [t]) == BareCount(tokens) + (if |kv| == 1 then 1 else 0)
    ensures var kv := Split(t, '=');
      Identifier(tokens + [t], words)
      == if |kv| == 1 && 0 <= words <= BareCount(tokens) then kv[0] else Identifier(tokens, words)
  {
    assert (tokens + [t])[..|tokens|] == tokens;
    BareTokensAppend(tokens, t);
    if IsBare(t) {
      SplitCount(t, '=');
      SplitWithoutSeparator(t, '=');
    }
  }

  /** Once a bare word has been seen, no later bare word means it is still the last one. */
  lemma {:induction false} BareTokensNoLaterBare(tokens: seq<string>, i: int)
    requires 0 <= i < |tokens| && IsBare(tokens[i])
    requires forall j :: i < j < |tokens| ==> !IsBare(tokens[j])
    ensures BareTokens(tokens) == BareTokens(tokens[..i]) + [tokens[i]]
    decreases |tokens|
  {
    var init := tokens[..|tokens| - 1];
    if i < |tokens| - 1 {
      assert init[i] == tokens[i];
      assert init[..i] == tokens[..i];
      forall j | i < j < |init| ensures !IsBare(init[j]) {
        assert init[j] == tokens[j];
      }
      BareTokensNoLaterBare(init, i);
    } else {
      assert init == tokens[..i];
    }
  }

  /**
   * The identifier is the last bare word, provided at least `words` bare words
   * come before it.
   */
  lemma IdentifierIsLastBare(tokens: seq<string>, words: int, i: int)
    requires 0 <= i < |tokens| && IsBare(tokens[i])
    requires 0 <= words <= BareCount(tokens[..i])
    requires forall j :: i < j < |tokens| ==> !IsBare(tokens[j])
    ensures Identifier(tokens, words) == tokens[i]
  {
    BareTokensNoLaterBare(tokens, i);
  }

  /** With `words` or fewer bare words (or a negative threshold) the identifier stays "". */
  lemma IdentifierEmpty(tokens: seq<string>, words: int)
    requires words < 0 || BareCount(tokens) <= words
    ensures Identifier(tokens, words) == ""
  {
  }

  /**
   * `parseKeyValueString`: the quick rejection when there is no '=' at all,
   * then one pass over the space-separated tokens.
   */
  method ParseKeyValueString(s: string, words: int)
    returns (err: Option<KvError>, res: map<string, string>, objectValue: string)
    ensures Patch(err, res, objectValue) == ParseKeyValue(s, words)
  {
    res := map[];
    var tokens := Split(s, ' ');
    if |tokens| == 0 {
      // Split always yields at least one piece, so this branch is never taken.
      return Some(NoTokensFound), res, "";
    }
    if '=' !in s {
      return Some(NotAKeyValueList), res, "";
    }
    var skipped := 0;
    objectValue := "";
    var i := 0;
    while i < |tokens|
      invariant 0 <= i <= |tokens|
      invariant res == PairsOf(tokens[..i])
      invariant skipped == if 0 <= words <= BareCount(tokens[..i]) then words else BareCount(tokens[..i])
      invariant objectValue == Identifier(tokens[..i], words)
    {
      // A token holds no space, so splitting it again on ' ' gives the token itself.
      var contentTokens := Split(tokens[i], ' ');
      SplitWithoutSeparator(tokens[i], ' ');
      var keyValueTokens := Split(contentTokens[0], '=');
      Append(tokens[..i], tokens[i], words);
      assert tokens[..i + 1] == tokens[..i] + [tokens[i]];
      if |keyValueTokens| == 2 {
        res := res[keyValueTokens[0] := keyValueTokens[1]];
      } else if |keyValueTokens| == 1 {
        if skipped == words {
          objectValue := keyValueTokens[0];
        } else {
          skipped := skipped + 1;
        }
      }
      i := i + 1;
    }
    assert tokens[..i] == tokens;
    err := None;
  }
}
