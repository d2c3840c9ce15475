/*
 * Properties of the batch encoder: the shape of the matrices, the layout of
 * every row, the attention and word masks, and the error path.
 */
module EncodedProps {
  import opened Encoded

  // ---------------------------------------------------------------------
  // Views of one prompt of an encodable batch
  // ---------------------------------------------------------------------

  /**
   * Prompt `i` of an encodable batch after the sizing pass: the tokenizer's
   * ids for each of its units, and the number of those ids that belong to
   * the units at positions `<= entitiesLen`.
   */
  function PromptEncoding<Tok>(input: PromptInput<Tok>, tokenizer: Tokenizer, i: nat): (ep: EncodedPrompt)
    requires Encode(input, tokenizer).Ok? && i < |input.prompts|
    ensures |ep.encoding| == |input.prompts[i].units|
    ensures forall u :: 0 <= u < |ep.encoding| ==> tokenizer(input.prompts[i].units[u]) == Ok(ep.encoding[u])
    ensures ep.textOffset == TextOffset(ep.encoding, input.prompts[i].entitiesLen)
  {
    EncodePrompts(input.prompts, tokenizer).value[i]
  }

  /** Row `i` of each matrix is the padded row of prompt `i`. */
  lemma RowsOfPrompt<Tok>(input: PromptInput<Tok>, tokenizer: Tokenizer, out: EncodedInput<Tok>, i: nat, ep: EncodedPrompt)
    requires Encode(input, tokenizer) == Ok(out) && i < |input.prompts|
    requires ep == PromptEncoding(input, tokenizer, i)
    ensures TotalTokens(ep) <= out.numTokens
    ensures out.inputIds[i] == IdRow(ep.encoding, out.numTokens)
    ensures out.attentionMasks[i] == AttnRow(|Flatten(ep.encoding)|, out.numTokens)
    ensures out.wordMasks[i] == MaskRow(ep, out.numTokens)
  {
  }

  /** Number of elements of `s` equal to `v`. */
  function Count(s: seq<int>, v: int): nat
  {
    if s == [] then 0 else Count(s[..|s| - 1], v) + (if s[|s| - 1] == v then 1 else 0)
  }

  /**
   * Row position of the first token of unit `u`: right after the start
   * marker and the tokens of the units before it.
   */
  function UnitStart(enc: seq<seq<U32>>, u: nat): (start: nat)
    requires u <= |enc|
    ensures start >= 1
  {
    Cursor(enc[..u])
  }

  /** Every element of `s` is `v`. */
  predicate AllEqual(s: seq<int>, v: int)
  {
    forall k :: 0 <= k < |s| ==> s[k] == v
  }

  // ---------------------------------------------------------------------
  // Errors
  // ---------------------------------------------------------------------

  /** Encoding the units fails exactly when the tokenizer fails on one of them. */
  lemma {:induction false} UnitsFailIff(units: seq<string>, tokenizer: Tokenizer)
    ensures EncodeUnits(units, tokenizer).Err? <==> exists k :: 0 <= k < |units| && tokenizer(units[k]).Err?
    decreases |units|
  {
    if units != [] {
      var init := units[..|units| - 1];
      UnitsFailIff(init, tokenizer);
      if exists k :: 0 <= k < |init| && tokenizer(init[k]).Err? {
        var k :| 0 <= k < |init| && tokenizer(init[k]).Err?;
        assert units[k] == init[k];
      }
      if exists k :: 0 <= k < |units| && tokenizer(units[k]).Err? {
        var k :| 0 <= k < |units| && tokenizer(units[k]).Err?;
        if k < |init| {
          assert init[k] == units[k];
        }
      }
    }
  }

  /** The error of the units is the tokenizer's error on the first unit it fails on. */
  lemma {:induction false} UnitsFirstFailure(units: seq<string>, tokenizer: Tokenizer)
    requires EncodeUnits(units, tokenizer).Err?
    ensures exists k :: (0 <= k < |units| && tokenizer(units[k]) == Err(EncodeUnits(units, tokenizer).error) &&
                         forall k' :: 0 <= k' < k ==> tokenizer(units[k']).Ok?)
    decreases |units|
  {
    var init := units[..|units| - 1];
    if EncodeUnits(init, tokenizer).Err? {
      UnitsFirstFailure(init, tokenizer);
      var k :| 0 <= k < |init| && tokenizer(init[k]) == Err(EncodeUnits(init, tokenizer).error) &&
        forall k' :: 0 <= k' < k ==> tokenizer(init[k']).Ok?;
      assert forall k' :: 0 <= k' <= k ==> init[k'] == units[k'];
    } else {
      var k := |units| - 1;
      assert forall k' :: 0 <= k' < k ==> init[k'] == units[k'];
    }
  }

  /** When no unit fails, the result is exactly the tokenizer's ids for each unit, in order. */
  lemma {:induction false} UnitsEncodeToTheirIds(units: seq<string>, tokenizer: Tokenizer, ids: seq<seq<U32>>)
    requires |ids| == |units|
    requires forall k :: 0 <= k < |units| ==> tokenizer(units[k]) == Ok(ids[k])
    ensures EncodeUnits(units, tokenizer) == Ok(ids)
    decreases |units|
  {
    if units != [] {
      var n := |units| - 1;
      UnitsEncodeToTheirIds(units[..n], tokenizer, ids[..n]);
      assert ids[..n] + [ids[n]] == ids;
    }
  }

  /** The batch fails exactly when some prompt's units fail. */
  lemma {:induction false} PromptsFailIff(prompts: seq<Prompt>, tokenizer: Tokenizer)
    ensures EncodePrompts(prompts, tokenizer).Err? <==>
      exists i :: 0 <= i < |prompts| && EncodeUnits(prompts[i].units, tokenizer).Err?
    decreases |prompts|
  {
    if prompts != [] {
      var init := prompts[..|prompts| - 1];
      PromptsFailIff(init, tokenizer);
      if exists i :: 0 <= i < |init| && EncodeUnits(init[i].units, tokenizer).Err? {
        var i :| 0 <= i < |init| && EncodeUnits(init[i].units, tokenizer).Err?;
        assert prompts[i] == init[i];
      }
      if exists i :: 0 <= i < |prompts| && EncodeUnits(prompts[i].units, tokenizer).Err? {
        var i :| 0 <= i < |prompts| && EncodeUnits(prompts[i].units, tokenizer).Err?;
        if i < |init| {
          assert init[i] == prompts[i];
        }
      }
    }
  }

  /** When no prompt fails, the result is exactly each prompt's encoding, in order. */
  lemma {:induction false} PromptsEncodeToTheirEncodings(prompts: seq<Prompt>, tokenizer: Tokenizer, eps: seq<EncodedPrompt>)
    requires |eps| == |prompts|
    requires forall i :: 0 <= i < |prompts| ==> EncodePrompt(prompts[i], tokenizer) == Ok(eps[i])
    ensures EncodePrompts(prompts, tokenizer) == Ok(eps)
    decreases |prompts|
  {
    if prompts != [] {
      var n := |prompts| - 1;
      PromptsEncodeToTheirEncodings(prompts[..n], tokenizer, eps[..n]);
      assert eps[..n] + [eps[n]] == eps;
    }
  }

  /** The batch's error is that of the first prompt that fails. */
  lemma {:induction false} PromptsFirstFailure(prompts: seq<Prompt>, tokenizer: Tokenizer)
    requires EncodePrompts(prompts, tokenizer).Err?
    ensures exists i :: (0 <= i < |prompts| &&
                         EncodeUnits(prompts[i].units, tokenizer) == Err(EncodePrompts(prompts, tokenizer).error) &&
                         forall i' :: 0 <= i' < i ==> EncodeUnits(prompts[i'].units, tokenizer).Ok?)
    decreases |prompts|
  {
    var init := prompts[..|prompts| - 1];
    if EncodePrompts(init, tokenizer).Err? {
      PromptsFirstFailure(init, tokenizer);
      var i :| 0 <= i < |init| && EncodeUnits(init[i].units, tokenizer) == Err(EncodePrompts(init, tokenizer).error) &&
        forall i' :: 0 <= i' < i ==> EncodeUnits(init[i'].units, tokenizer).Ok?;
      assert forall i' :: 0 <= i' <= i ==> init[i'] == prompts[i'];
    } else {
      var i := |prompts| - 1;
      forall i' | 0 <= i' < i
        ensures EncodeUnits(prompts[i'].units, tokenizer).Ok?
      {
        assert EncodePrompt(init[i'], tokenizer).Ok?;
        assert init[i'] == prompts[i'];
      }
    }
  }

  /**
   * The whole call fails exactly when the tokenizer fails on some unit of
   * some prompt; no partial result is produced.
   */
  lemma FailsIffSomeUnitFails<Tok>(input: PromptInput<Tok>, tokenizer: Tokenizer)
    ensures Encode(input, tokenizer).Err? <==>
      exists i, k :: 0 <= i < |input.prompts| && 0 <= k < |input.prompts[i].units| &&
        tokenizer(input.prompts[i].units[k]).Err?
  {
    var prompts := input.prompts;
    PromptsFailIff(prompts, tokenizer);
    forall i | 0 <= i < |prompts| {
      UnitsFailIff(prompts[i].units, tokenizer);
    }
  }

  /**
   * On failure the error is the tokenizer's error on the first failing unit,
   * in prompt order and then unit order: every unit before it encoded.
   */
  lemma ErrorIsFirstFailure<Tok>(input: PromptInput<Tok>, tokenizer: Tokenizer)
    requires Encode(input, tokenizer).Err?
    ensures exists i, k :: (0 <= i < |input.prompts| && 0 <= k < |input.prompts[i].units| &&
                            tokenizer(input.prompts[i].units[k]) == Err(Encode(input, tokenizer).error) &&
                            (forall k' :: 0 <= k' < k ==> tokenizer(input.prompts[i].units[k']).Ok?) &&
                            (forall i', k' :: 0 <= i' < i && 0 <= k' < |input.prompts[i'].units| ==>
                               tokenizer(input.prompts[i'].units[k']).Ok?))
  {
    var prompts := input.prompts;
    PromptsFirstFailure(prompts, tokenizer);
    var i :| 0 <= i < |prompts| &&
      EncodeUnits(prompts[i].units, tokenizer) == Err(EncodePrompts(prompts, tokenizer).error) &&
      forall i' :: 0 <= i' < i ==> EncodeUnits(prompts[i'].units, tokenizer).Ok?;
    UnitsFirstFailure(prompts[i].units, tokenizer);
    var k :| 0 <= k < |prompts[i].units| &&
      tokenizer(prompts[i].units[k]) == Err(EncodeUnits(prompts[i].units, tokenizer).error) &&
      forall k' :: 0 <= k' < k ==> tokenizer(prompts[i].units[k']).Ok?;
    assert tokenizer(prompts[i].units[k]) == Err(Encode(input, tokenizer).error);
  }

  // ---------------------------------------------------------------------
  // Shape
  // ---------------------------------------------------------------------

  /**
   * `num_tokens` is the largest `total_tokens` (sub-words plus the two
   * markers) over the prompts, and 0 with no rows at all for an empty batch.
   */
  lemma WidthIsMaximum<Tok>(input: PromptInput<Tok>, tokenizer: Tokenizer, out: EncodedInput<Tok>)
    requires Encode(input, tokenizer) == Ok(out)
    ensures forall i :: 0 <= i < |input.prompts| ==> TotalTokens(PromptEncoding(input, tokenizer, i)) <= out.numTokens
    ensures input.prompts != [] ==>
      exists i :: 0 <= i < |input.prompts| && TotalTokens(PromptEncoding(input, tokenizer, i)) == out.numTokens
    ensures input.prompts == [] ==> out.numTokens == 0 && out.inputIds == [] && out.attentionMasks == [] && out.wordMasks == []
  {
    var eps := EncodePrompts(input.prompts, tokenizer).value;
    assert out.numTokens == Width(eps);
    forall i | 0 <= i < |eps|
      ensures PromptEncoding(input, tokenizer, i) == eps[i]
    {
    }
  }

  /** One row per prompt in every matrix, each exactly `num_tokens` wide. */
  lemma RowsHaveWidth<Tok>(input: PromptInput<Tok>, tokenizer: Tokenizer, out: EncodedInput<Tok>)
    requires Encode(input, tokenizer) == Ok(out)
    ensures |out.inputIds| == |out.attentionMasks| == |out.wordMasks| == |input.prompts|
    ensures forall i :: 0 <= i < |input.prompts| ==>
      |out.inputIds[i]| == out.numTokens && |out.attentionMasks[i]| == out.numTokens && |out.wordMasks[i]| == out.numTokens
  {
  }

  /**
   * The other fields are passed through, and `text_lengths` holds one
   * single-cell row per entry of the input's text lengths.
   */
  lemma Passthrough<Tok>(input: PromptInput<Tok>, tokenizer: Tokenizer, out: EncodedInput<Tok>)
    requires Encode(input, tokenizer) == Ok(out)
    ensures out.texts == input.texts && out.tokens == input.tokens && out.entities == input.entities
    ensures out.numWords == input.numWords
    ensures |out.textLengths| == |input.textLengths|
    ensures forall i :: 0 <= i < |input.textLengths| ==> out.textLengths[i] == [input.textLengths[i] as int]
  {
  }

  // ---------------------------------------------------------------------
  // Input ids and attention
  // ---------------------------------------------------------------------

  /** The layout of one padded id row with room for both markers. */
  lemma IdRowCells(enc: seq<seq<U32>>, width: nat)
    requires 2 + |Flatten(enc)| <= width
    ensures IdRow(enc, width)[0] == StartId
    ensures IdRow(enc, width)[1..|Flatten(enc)| + 1] == Flatten(enc)
    ensures IdRow(enc, width)[|Flatten(enc)| + 1] == EndId
    ensures forall k :: |Flatten(enc)| + 1 < k < width ==> IdRow(enc, width)[k] == 0
  {
  }

  /** The cells of a padded id row under unit `u` hold exactly that unit's ids. */
  lemma IdRowUnit(enc: seq<seq<U32>>, width: nat, u: nat)
    requires 2 + |Flatten(enc)| <= width && u < |enc|
    ensures UnitStart(enc, u) + |enc[u]| < width
    ensures IdRow(enc, width)[UnitStart(enc, u)..UnitStart(enc, u) + |enc[u]|] == enc[u]
  {
    UnitCells(EncodedPrompt(enc, 0), u);
  }

  /** `IdRowLayout` for a batch whose row `i` is known to be the padded id row of `ep`. */
  lemma IdRowOfPrompt<Tok>(out: EncodedInput<Tok>, i: nat, ep: EncodedPrompt)
    requires i < |out.inputIds| && TotalTokens(ep) <= out.numTokens
    requires out.inputIds[i] == IdRow(ep.encoding, out.numTokens)
    ensures |out.inputIds[i]| == out.numTokens && |Flatten(ep.encoding)| + 2 <= out.numTokens
    ensures out.inputIds[i][0] == StartId
    ensures out.inputIds[i][1..|Flatten(ep.encoding)| + 1] == Flatten(ep.encoding)
    ensures forall u :: 0 <= u < |ep.encoding| ==>
      UnitStart(ep.encoding, u) + |ep.encoding[u]| < out.numTokens &&
      out.inputIds[i][UnitStart(ep.encoding, u)..UnitStart(ep.encoding, u) + |ep.encoding[u]|] == ep.encoding[u]
    ensures out.inputIds[i][|Flatten(ep.encoding)| + 1] == EndId
    ensures forall k :: |Flatten(ep.encoding)| + 1 < k < out.numTokens ==> out.inputIds[i][k] == 0
  {
    IdRowCells(ep.encoding, out.numTokens);
    forall u | 0 <= u < |ep.encoding| {
      IdRowUnit(ep.encoding, out.numTokens, u);
    }
  }

  /**
   * Row `i` of `input_ids`: 1, then the sub-word ids of all units in unit
   * order, then 2, then zeros up to `num_tokens`; the cells under unit `u`
   * (right after the start marker and the units before it) hold exactly the
   * tokenizer's ids for that unit.
   */
  lemma IdRowLayout<Tok>(input: PromptInput<Tok>, tokenizer: Tokenizer, out: EncodedInput<Tok>, i: nat, ep: EncodedPrompt)
    requires Encode(input, tokenizer) == Ok(out) && i < |input.prompts|
    requires ep == PromptEncoding(input, tokenizer, i)
    ensures |out.inputIds[i]| == out.numTokens && |Flatten(ep.encoding)| + 2 <= out.numTokens
    ensures out.inputIds[i][0] == StartId
    ensures out.inputIds[i][1..|Flatten(ep.encoding)| + 1] == Flatten(ep.encoding)
    ensures forall u :: 0 <= u < |ep.encoding| ==>
      UnitStart(ep.encoding, u) + |ep.encoding[u]| < out.numTokens &&
      out.inputIds[i][UnitStart(ep.encoding, u)..UnitStart(ep.encoding, u) + |ep.encoding[u]|] == ep.encoding[u]
    ensures out.inputIds[i][|Flatten(ep.encoding)| + 1] == EndId
    ensures forall k :: |Flatten(ep.encoding)| + 1 < k < out.numTokens ==> out.inputIds[i][k] == 0
  {
    RowsOfPrompt(input, tokenizer, out, i, ep);
    IdRowOfPrompt(out, i, ep);
  }

  /** Counting the cells of a row that is 1 on its first `m` cells and 0 after. */
  lemma {:induction false} CountPrefixOnes(s: seq<int>, m: nat)
    requires m <= |s|
    requires forall k :: 0 <= k < |s| ==> s[k] == if k < m then 1 else 0
    ensures Count(s, 1) == m && Count(s, 0) == |s| - m
    decreases |s|
  {
    if s != [] {
      var init := s[..|s| - 1];
      if m == |s| {
        CountPrefixOnes(init, m - 1);
      } else {
        CountPrefixOnes(init, m);
      }
    }
  }

  /**
   * Row `i` of `attention_masks` is 1 exactly on the cells of the two
   * markers and the `n` sub-words and 0 on the padding, so it holds `n + 2`
   * ones and `num_tokens - (n + 2)` zeros.
   */
  lemma AttentionIsExact<Tok>(input: PromptInput<Tok>, tokenizer: Tokenizer, out: EncodedInput<Tok>, i: nat, ep: EncodedPrompt)
    requires Encode(input, tokenizer) == Ok(out) && i < |input.prompts|
    requires ep == PromptEncoding(input, tokenizer, i)
    ensures |out.attentionMasks[i]| == out.numTokens
    ensures forall k :: 0 <= k < out.numTokens ==>
      out.attentionMasks[i][k] == if k <= |Flatten(ep.encoding)| + 1 then 1 else 0
    ensures Count(out.attentionMasks[i], 1) == |Flatten(ep.encoding)| + 2
    ensures Count(out.attentionMasks[i], 0) == out.numTokens - (|Flatten(ep.encoding)| + 2)
  {
    RowsOfPrompt(input, tokenizer, out, i, ep);
    CountPrefixOnes(out.attentionMasks[i], |Flatten(ep.encoding)| + 2);
  }

  // ---------------------------------------------------------------------
  // Word mask
  // ---------------------------------------------------------------------

  /** Taking fewer units never yields more ids. */
  lemma PrefixMonotone(enc: seq<seq<U32>>, a: nat, b: nat)
    requires a <= b <= |enc|
    ensures |Flatten(enc[..a])| <= |Flatten(enc[..b])|
  {
    assert enc[..b][..a] == enc[..a];
    FlattenPrefix(enc[..b], a);
  }

  /**
   * The word-mask cells over the sub-word tokens: none is written before
   * `offset`, none exceeds the final counter, they never decrease, and the
   * counter never exceeds the number of units.
   */
  lemma {:induction false} MaskTokensShape(enc: seq<seq<U32>>, offset: nat)
    ensures forall k :: 0 <= k < |MaskTokens(enc, offset)| ==>
      0 <= MaskTokens(enc, offset)[k] <= WordId(enc, offset) && (MaskTokens(enc, offset)[k] != 0 ==> k + 1 >= offset)
    ensures forall a, b :: 0 <= a <= b < |MaskTokens(enc, offset)| ==> MaskTokens(enc, offset)[a] <= MaskTokens(enc, offset)[b]
    ensures WordId(enc, offset) <= |enc|
    decreases |enc|
  {
    if enc != [] {
      var init := enc[..|enc| - 1];
      MaskTokensShape(init, offset);
      var m0 := MaskTokens(init, offset);
      var w0 := WordId(init, offset);
      var tail := UnitMask(Cursor(init), w0, |enc[|enc| - 1]|, offset);
      var mask := MaskTokens(enc, offset);
      assert mask == m0 + tail;
      assert WordId(enc, offset) >= w0;
      forall k | 0 <= k < |mask|
        ensures 0 <= mask[k] <= WordId(enc, offset) && (mask[k] != 0 ==> k + 1 >= offset)
      {
        if k < |m0| {
          assert mask[k] == m0[k];
        } else {
          assert mask[k] == tail[k - |m0|];
        }
      }
      forall a, b | 0 <= a <= b < |mask|
        ensures mask[a] <= mask[b]
      {
        if b < |m0| {
          assert mask[a] == m0[a] && mask[b] == m0[b];
        } else if a >= |m0| {
          assert mask[a] == tail[a - |m0|] && mask[b] == tail[b - |m0|];
        } else {
          assert mask[a] == m0[a] && mask[b] == tail[b - |m0|];
        }
      }
    }
  }

  /** Zeros and bounds of one padded word-mask row. */
  lemma MaskRowShape(ep: EncodedPrompt, width: nat)
    requires TotalTokens(ep) <= width
    ensures MaskRow(ep, width)[0] == 0
    ensures forall k :: 0 <= k < width && k < ep.textOffset ==> MaskRow(ep, width)[k] == 0
    ensures forall k :: |Flatten(ep.encoding)| + 1 <= k < width ==> MaskRow(ep, width)[k] == 0
    ensures forall a, b :: 0 <= a <= b <= |Flatten(ep.encoding)| ==> MaskRow(ep, width)[a] <= MaskRow(ep, width)[b]
    ensures forall k :: 0 <= k < width ==> 0 <= MaskRow(ep, width)[k] <= |ep.encoding|
  {
    MaskTokensShape(ep.encoding, ep.textOffset);
  }

  /**
   * Row `i` of `word_masks` is 0 under the start marker, at every position
   * before the prompt's text offset, under the end marker and on the
   * padding; it never decreases from the start marker to the last sub-word,
   * and no cell is negative or exceeds the number of units of the prompt.
   */
  lemma WordMaskShape<Tok>(input: PromptInput<Tok>, tokenizer: Tokenizer, out: EncodedInput<Tok>, i: nat, ep: EncodedPrompt)
    requires Encode(input, tokenizer) == Ok(out) && i < |input.prompts|
    requires ep == PromptEncoding(input, tokenizer, i)
    ensures out.wordMasks[i][0] == 0
    ensures forall k :: 0 <= k < out.numTokens && k < ep.textOffset ==> out.wordMasks[i][k] == 0
    ensures forall k :: |Flatten(ep.encoding)| + 1 <= k < out.numTokens ==> out.wordMasks[i][k] == 0
    ensures forall a, b :: 0 <= a <= b <= |Flatten(ep.encoding)| ==> out.wordMasks[i][a] <= out.wordMasks[i][b]
    ensures forall k :: 0 <= k < out.numTokens ==> 0 <= out.wordMasks[i][k] <= |input.prompts[i].units|
  {
    RowsOfPrompt(input, tokenizer, out, i, ep);
    MaskRowShape(ep, out.numTokens);
  }

  /**
   * The counter before unit `u`, when the unit before position `entitiesLen`
   * is non-empty and the unit at it is not: 0 up to that unit, then one more
   * per unit, starting from 1 only if that unit is a single sub-word.
   */
  lemma {:induction false} WordIdBeforeUnit(enc: seq<seq<U32>>, entitiesLen: nat, u: nat)
    requires 1 <= entitiesLen < |enc|
    requires |enc[entitiesLen - 1]| >= 1 && |enc[entitiesLen]| >= 1
    requires u <= |enc|
    ensures WordId(enc[..u], TextOffset(enc, entitiesLen))
         == if u < entitiesLen then 0 else u - entitiesLen + (if |enc[entitiesLen]| == 1 then 1 else 0)
  {
    var offset := TextOffset(enc, entitiesLen);
    if u == 0 {
      assert enc[..0] == [];
    } else {
      WordIdBeforeUnit(enc, entitiesLen, u - 1);
      WordIdStep(enc, offset, u - 1);
      CursorReachesOffset(enc, entitiesLen, u);
    }
  }

  /**
   * With a non-empty unit before position `entitiesLen` and one at it, the
   * cursor after `u >= 1` units reaches the text offset exactly when those
   * units include the one at `entitiesLen`, or stop just before it while it
   * is a single sub-word.
   */
  lemma CursorReachesOffset(enc: seq<seq<U32>>, entitiesLen: nat, u: nat)
    requires 1 <= entitiesLen < |enc|
    requires |enc[entitiesLen - 1]| >= 1 && |enc[entitiesLen]| >= 1
    requires 1 <= u <= |enc|
    ensures Cursor(enc[..u]) >= TextOffset(enc, entitiesLen) <==> u > entitiesLen || (u == entitiesLen && |enc[entitiesLen]| == 1)
  {
    var e := entitiesLen;
    PrefixStep(enc, e);
    PrefixStep(enc, e - 1);
    assert TextOffset(enc, e) == |Flatten(enc[..e - 1])| + |enc[e - 1]| + |enc[e]|;
    if u < e {
      PrefixMonotone(enc, u, e - 1);
    } else if u > e {
      PrefixMonotone(enc, e + 1, u);
    }
  }


  /** The value of a padded word-mask row under each unit (see `WordNumbering`). */
  lemma MaskRowNumbering(ep: EncodedPrompt, width: nat, entitiesLen: nat, u: nat)
    requires TotalTokens(ep) <= width
    requires ep.textOffset == TextOffset(ep.encoding, entitiesLen)
    requires 1 <= entitiesLen < |ep.encoding|
    requires |ep.encoding[entitiesLen - 1]| >= 1 && |ep.encoding[entitiesLen]| >= 1
    requires u < |ep.encoding|
    ensures UnitStart(ep.encoding, u) + |ep.encoding[u]| < width
    ensures AllEqual(MaskRow(ep, width)[UnitStart(ep.encoding, u)..UnitStart(ep.encoding, u) + |ep.encoding[u]|],
                     if u < entitiesLen then 0 else u - entitiesLen + (if |ep.encoding[entitiesLen]| == 1 then 1 else 0))
  {
    var enc := ep.encoding;
    var e := entitiesLen;
    PrefixStep(enc, e);
    UnitCells(ep, u);
    WordIdBeforeUnit(enc, e, u);
    if u < e {
      PrefixMonotone(enc, u + 1, e);
    } else if u > e {
      PrefixMonotone(enc, e + 1, u);
    }
  }

  /**
   * Word numbering of row `i`, as the counter is written. Let `e` be the
   * prompt's `entitiesLen`, with a non-empty unit before it and a non-empty
   * unit at it. Every token of a unit before `e` gets 0; every token of unit
   * `u >= e` gets `u - e + 1` when unit `e` is a single sub-word, and
   * `u - e` otherwise (the first word then gets 0 and the later ones shift
   * down by one).
   */
  lemma WordNumbering<Tok>(input: PromptInput<Tok>, tokenizer: Tokenizer, out: EncodedInput<Tok>, i: nat, ep: EncodedPrompt)
    requires Encode(input, tokenizer) == Ok(out) && i < |input.prompts|
    requires ep == PromptEncoding(input, tokenizer, i)
    requires 1 <= input.prompts[i].entitiesLen < |ep.encoding|
    requires |ep.encoding[input.prompts[i].entitiesLen - 1]| >= 1 && |ep.encoding[input.prompts[i].entitiesLen]| >= 1
    ensures forall u :: 0 <= u < |ep.encoding| ==>
      UnitStart(ep.encoding, u) + |ep.encoding[u]| < out.numTokens &&
      AllEqual(out.wordMasks[i][UnitStart(ep.encoding, u)..UnitStart(ep.encoding, u) + |ep.encoding[u]|],
               if u < input.prompts[i].entitiesLen then 0
               else u - input.prompts[i].entitiesLen + (if |ep.encoding[input.prompts[i].entitiesLen]| == 1 then 1 else 0))
  {
    RowsOfPrompt(input, tokenizer, out, i, ep);
    MaskNumberingOfPrompt(input, out, i, ep);
  }

  /** `WordNumbering` for a batch whose row `i` is known to be the padded word-mask row of `ep`. */
  lemma MaskNumberingOfPrompt<Tok>(input: PromptInput<Tok>, out: EncodedInput<Tok>, i: nat, ep: EncodedPrompt)
    requires i < |input.prompts| && i < |out.wordMasks| && TotalTokens(ep) <= out.numTokens
    requires out.wordMasks[i] == MaskRow(ep, out.numTokens)
    requires ep.textOffset == TextOffset(ep.encoding, input.prompts[i].entitiesLen)
    requires 1 <= input.prompts[i].entitiesLen < |ep.encoding|
    requires |ep.encoding[input.prompts[i].entitiesLen - 1]| >= 1 && |ep.encoding[input.prompts[i].entitiesLen]| >= 1
    ensures forall u :: 0 <= u < |ep.encoding| ==>
      UnitStart(ep.encoding, u) + |ep.encoding[u]| < out.numTokens &&
      AllEqual(out.wordMasks[i][UnitStart(ep.encoding, u)..UnitStart(ep.encoding, u) + |ep.encoding[u]|],
               if u < input.prompts[i].entitiesLen then 0
               else u - input.prompts[i].entitiesLen + (if |ep.encoding[input.prompts[i].entitiesLen]| == 1 then 1 else 0))
  {
    forall u | 0 <= u < |ep.encoding| {
      MaskRowNumbering(ep, out.numTokens, input.prompts[i].entitiesLen, u);
    }
  }

  /** Every cell between the markers lies under some unit. */
  lemma {:induction false} UnitOfCell(enc: seq<seq<U32>>, k: nat) returns (u: nat)
    requires 1 <= k <= |Flatten(enc)|
    ensures u < |enc| && UnitStart(enc, u) <= k < UnitStart(enc, u) + |enc[u]|
    decreases |enc|
  {
    var init := enc[..|enc| - 1];
    if k <= |Flatten(init)| {
      u := UnitOfCell(init, k);
      assert init[..u] == enc[..u];
    } else {
      u := |enc| - 1;
    }
  }

  /** Largest cell of a padded word-mask row when the first text word is a single sub-word. */
  lemma MaskRowMaximum(ep: EncodedPrompt, width: nat, entitiesLen: nat)
    requires TotalTokens(ep) <= width
    requires ep.textOffset == TextOffset(ep.encoding, entitiesLen)
    requires 1 <= entitiesLen < |ep.encoding|
    requires |ep.encoding[entitiesLen - 1]| >= 1 && |ep.encoding[entitiesLen]| == 1
    ensures forall k :: 0 <= k < width ==> MaskRow(ep, width)[k] <= |ep.encoding| - entitiesLen
    ensures |ep.encoding[|ep.encoding| - 1]| >= 1 ==>
      UnitStart(ep.encoding, |ep.encoding| - 1) < width &&
      MaskRow(ep, width)[UnitStart(ep.encoding, |ep.encoding| - 1)] == |ep.encoding| - entitiesLen
  {
    var enc := ep.encoding;
    var e := entitiesLen;
    var row := MaskRow(ep, width);
    forall k | 0 <= k < width
      ensures row[k] <= |enc| - e
    {
      if 1 <= k <= |Flatten(enc)| {
        var u := UnitOfCell(enc, k);
        MaskRowNumbering(ep, width, e, u);
        assert row[k] == row[UnitStart(enc, u)..UnitStart(enc, u) + |enc[u]|][k - UnitStart(enc, u)];
      }
    }
    if |enc[|enc| - 1]| >= 1 {
      var u := |enc| - 1;
      MaskRowNumbering(ep, width, e, u);
      assert row[UnitStart(enc, u)] == row[UnitStart(enc, u)..UnitStart(enc, u) + |enc[u]|][0];
    }
  }

  /**
   * The numbering the model expects: when, in addition, the unit at
   * `entitiesLen` is a single sub-word, the label and separator tokens get
   * 0, that unit and each later one get 1, 2, 3, ... in order, no cell
   * exceeds the number of those units, and when the last unit is non-empty
   * its first cell holds that number.
   */
  lemma WordNumberingSingleSubword<Tok>(input: PromptInput<Tok>, tokenizer: Tokenizer, out: EncodedInput<Tok>, i: nat, ep: EncodedPrompt)
    requires Encode(input, tokenizer) == Ok(out) && i < |input.prompts|
    requires ep == PromptEncoding(input, tokenizer, i)
    requires 1 <= input.prompts[i].entitiesLen < |ep.encoding|
    requires |ep.encoding[input.prompts[i].entitiesLen - 1]| >= 1 && |ep.encoding[input.prompts[i].entitiesLen]| == 1
    ensures forall u :: 0 <= u < |ep.encoding| ==>
      UnitStart(ep.encoding, u) + |ep.encoding[u]| < out.numTokens &&
      AllEqual(out.wordMasks[i][UnitStart(ep.encoding, u)..UnitStart(ep.encoding, u) + |ep.encoding[u]|],
               if u < input.prompts[i].entitiesLen then 0 else u - input.prompts[i].entitiesLen + 1)
    ensures forall k :: 0 <= k < out.numTokens ==> out.wordMasks[i][k] <= |ep.encoding| - input.prompts[i].entitiesLen
    ensures |ep.encoding[|ep.encoding| - 1]| >= 1 ==>
      UnitStart(ep.encoding, |ep.encoding| - 1) < out.numTokens &&
      out.wordMasks[i][UnitStart(ep.encoding, |ep.encoding| - 1)] == |ep.encoding| - input.prompts[i].entitiesLen
  {
    WordNumbering(input, tokenizer, out, i, ep);
    RowsOfPrompt(input, tokenizer, out, i, ep);
    MaskRowMaximum(ep, out.numTokens, input.prompts[i].entitiesLen);
  }
}
