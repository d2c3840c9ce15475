/*
 * The batch prompt encoder of gline-rs (src/model/input/encoded.rs).
 *
 * A prompt is a sequence of units (entity-label markers and labels, a
 * separator, then the words of the text). Every unit is encoded into
 * sub-word ids by the tokenizer, and the batch becomes four padded integer
 * matrices: input ids, attention masks, word masks and text lengths.
 *
 * The specification functions below describe the matrices; the methods
 * `From` and `Materialise` compute them the way the source does (two passes,
 * rows filled in place through the cursor `idx` and the counter `wordId`)
 * and are proved equal to them.
 */
module Encoded {

  /** Sub-word ids are `u32` in the source. */
  type U32 = x: int | 0 <= x < 0x1_0000_0000

  datatype Result<T> = Ok(value: T) | Err(error: string)

  /** The tokenizer: a deterministic, possibly failing map from one unit to its sub-word ids. */
  type Tokenizer = string -> Result<seq<U32>>

  /** Ids of the start and end markers written around every prompt. */
  const StartId: int := 1
  const EndId: int := 2

  /**
   * An assembled prompt: its units in order, and `entitiesLen`, the value of
   * `entities_len()` for it (the position of the first unit that is a word of
   * the text, when the prompt has one).
   */
  datatype Prompt = Prompt(units: seq<string>, entitiesLen: nat)

  /** The assembled batch; `Tok` is the splitter's token record, only passed through. */
  datatype PromptInput<Tok> = PromptInput(
    texts: seq<string>,
    tokens: seq<seq<Tok>>,
    entities: seq<string>,
    numWords: nat,
    prompts: seq<Prompt>,
    textLengths: seq<nat>)

  /** One prompt after the sizing pass: the encoding of each unit, and where the text starts. */
  datatype EncodedPrompt = EncodedPrompt(encoding: seq<seq<U32>>, textOffset: nat)

  /** The encoder's output; every matrix is a sequence of rows. */
  datatype EncodedInput<Tok> = EncodedInput(
    texts: seq<string>,
    tokens: seq<seq<Tok>>,
    entities: seq<string>,
    numWords: nat,
    numTokens: nat,
    inputIds: seq<seq<int>>,
    attentionMasks: seq<seq<int>>,
    wordMasks: seq<seq<int>>,
    textLengths: seq<seq<int>>)

  function Min(a: nat, b: nat): nat { if a <= b then a else b }
  function Max(a: nat, b: nat): nat { if a <= b then b else a }

  // ---------------------------------------------------------------------
  // Sizing pass
  // ---------------------------------------------------------------------

  /** The sub-word ids of all units, concatenated in unit order. */
  function Flatten(enc: seq<seq<U32>>): seq<U32>
  {
    if enc == [] then [] else Flatten(enc[..|enc| - 1]) + enc[|enc| - 1]
  }

  lemma FlattenSnoc(enc: seq<seq<U32>>, last: seq<U32>)
    ensures Flatten(enc + [last]) == Flatten(enc) + last
  {
    assert (enc + [last])[..|enc|] == enc;
  }

  /** The ids of the first `u` units are a prefix of all the ids. */
  lemma {:induction false} FlattenPrefix(enc: seq<seq<U32>>, u: nat)
    requires u <= |enc|
    ensures |Flatten(enc[..u])| <= |Flatten(enc)|
    ensures Flatten(enc[..u]) == Flatten(enc)[..|Flatten(enc[..u])|]
    decreases |enc|
  {
    if u < |enc| {
      var init := enc[..|enc| - 1];
      assert init[..u] == enc[..u];
      FlattenPrefix(init, u);
    } else {
      assert enc[..u] == enc;
    }
  }

  /**
   * Encodes the units one by one, in order; the first failure of the
   * tokenizer is the result.
   */
  function EncodeUnits(units: seq<string>, tokenizer: Tokenizer): (r: Result<seq<seq<U32>>>)
    ensures r.Ok? ==> |r.value| == |units|
    ensures r.Ok? ==> forall k :: 0 <= k < |units| ==> tokenizer(units[k]) == Ok(r.value[k])
  {
    if units == [] then Ok([])
    else
      match EncodeUnits(units[..|units| - 1], tokenizer)
      case Err(e) => Err(e)
      case Ok(init) =>
        match tokenizer(units[|units| - 1])
        case Err(e) => Err(e)
        case Ok(last) => Ok(init + [last])
  }

  /** Sub-word count of the units at positions `<= entitiesLen` (source line 52). */
  function TextOffset(enc: seq<seq<U32>>, entitiesLen: nat): (r: nat)
    ensures r <= |Flatten(enc)|
  {
    FlattenPrefix(enc, Min(entitiesLen + 1, |enc|));
    assert |enc| <= entitiesLen + 1 ==> enc[..Min(entitiesLen + 1, |enc|)] == enc;
    |Flatten(enc[..Min(entitiesLen + 1, |enc|)])|
  }

  /**
   * One prompt of the sizing pass: its units encoded in order, and its text
   * offset; the first failing unit's error is the result.
   */
  function EncodePrompt(prompt: Prompt, tokenizer: Tokenizer): (r: Result<EncodedPrompt>)
    ensures r.Ok? <==> EncodeUnits(prompt.units, tokenizer).Ok?
    ensures r.Ok? ==> |r.value.encoding| == |prompt.units|
    ensures r.Ok? ==> forall k :: 0 <= k < |prompt.units| ==> tokenizer(prompt.units[k]) == Ok(r.value.encoding[k])
    ensures r.Ok? ==> r.value.textOffset <= |Flatten(r.value.encoding)|
  {
    match EncodeUnits(prompt.units, tokenizer)
    case Err(e) => Err(e)
    case Ok(enc) => Ok(EncodedPrompt(enc, TextOffset(enc, prompt.entitiesLen)))
  }

  /** Sizing pass over the whole batch; the first failing prompt's error is the result. */
  function EncodePrompts(prompts: seq<Prompt>, tokenizer: Tokenizer): (r: Result<seq<EncodedPrompt>>)
    ensures r.Ok? ==> |r.value| == |prompts|
    ensures r.Ok? ==> forall i :: 0 <= i < |prompts| ==> EncodePrompt(prompts[i], tokenizer) == Ok(r.value[i])
  {
    if prompts == [] then Ok([])
    else
      match EncodePrompts(prompts[..|prompts| - 1], tokenizer)
      case Err(e) => Err(e)
      case Ok(init) =>
        match EncodePrompt(prompts[|prompts| - 1], tokenizer)
        case Err(e) => Err(e)
        case Ok(last) => Ok(init + [last])
  }

  /** `total_tokens` of one prompt: its sub-words plus the two markers. */
  function TotalTokens(ep: EncodedPrompt): (r: nat)
    ensures r == Cursor(ep.encoding) + 1
  {
    2 + |Flatten(ep.encoding)|
  }

  /** `max_tokens`: the largest `total_tokens` of the batch, 0 for an empty batch. */
  function Width(eps: seq<EncodedPrompt>): (r: nat)
    ensures forall i :: 0 <= i < |eps| ==> TotalTokens(eps[i]) <= r
    ensures eps == [] ==> r == 0
    ensures eps != [] ==> exists i :: 0 <= i < |eps| && TotalTokens(eps[i]) == r
  {
    if eps == [] then 0
    else
      var init := eps[..|eps| - 1];
      var w := Width(init);
      assert forall i :: 0 <= i < |init| ==> init[i] == eps[i];
      Max(w, TotalTokens(eps[|eps| - 1]))
  }

  // ---------------------------------------------------------------------
  // Materialising pass
  // ---------------------------------------------------------------------

  /** The cursor `idx` once the start marker and the units `enc` are written. */
  function Cursor(enc: seq<seq<U32>>): (r: nat)
    ensures r >= 1
  {
    1 + |Flatten(enc)|
  }

  /**
   * The counter `word_id` after the units `enc`: it rises by one after every
   * unit whose end leaves the cursor at or past `offset` (source lines 95-98).
   */
  function WordId(enc: seq<seq<U32>>, offset: nat): (r: nat)
    ensures r <= |enc|
    ensures Cursor(enc) < offset ==> r == 0
    ensures offset <= 1 ==> r == |enc|
  {
    if enc == [] then 0
    else WordId(enc[..|enc| - 1], offset) + (if Cursor(enc) >= offset then 1 else 0)
  }

  /**
   * Word mask of the `len` tokens of one unit written from cursor `start`
   * while the counter holds `id`: a cell is written only at or past `offset`
   * (source lines 89-91); otherwise it keeps its initial 0.
   */
  function UnitMask(start: nat, id: nat, len: nat, offset: nat): (r: seq<int>)
    ensures |r| == len
    ensures offset <= start ==> forall j :: 0 <= j < len ==> r[j] == id
    ensures start + len <= offset ==> forall j :: 0 <= j < len ==> r[j] == 0
  {
    seq(len, j => if start + j >= offset then id else 0)
  }

  /** Word-mask cells of all sub-word tokens of `enc`, in order. */
  function MaskTokens(enc: seq<seq<U32>>, offset: nat): (r: seq<int>)
    ensures |r| == |Flatten(enc)|
  {
    if enc == [] then []
    else
      var init := enc[..|enc| - 1];
      MaskTokens(init, offset) + UnitMask(Cursor(init), WordId(init, offset), |enc[|enc| - 1]|, offset)
  }

  /** Cell `k` of an `input_ids` row: start marker, the sub-word ids in unit order, end marker, then 0. */
  function IdCell(enc: seq<seq<U32>>, k: nat): (r: int)
    ensures 0 <= r < 0x1_0000_0000
    ensures k == Cursor(enc) ==> r == EndId
    ensures k > Cursor(enc) ==> r == 0
  {
    var flat := Flatten(enc);
    if k == 0 then StartId
    else if k <= |flat| then flat[k - 1]
    else if k == |flat| + 1 then EndId
    else 0
  }

  /** Cell `k` of an `attention_masks` row for a prompt of `n` sub-words. */
  function AttnCell(n: nat, k: nat): (r: int)
    ensures r == 0 || r == 1
    ensures r == 1 <==> k < n + 2
  {
    if k <= n + 1 then 1 else 0
  }

  /** Cell `k` of a `word_masks` row: 0 under both markers and on the padding. */
  function MaskCell(ep: EncodedPrompt, k: nat): (r: int)
    ensures k == 0 || k >= Cursor(ep.encoding) ==> r == 0
  {
    var mask := MaskTokens(ep.encoding, ep.textOffset);
    if 1 <= k <= |mask| then mask[k - 1] else 0
  }

  function IdRow(enc: seq<seq<U32>>, width: nat): seq<int>
  {
    seq(width, k requires 0 <= k < width => IdCell(enc, k))
  }

  function AttnRow(n: nat, width: nat): seq<int>
  {
    seq(width, k requires 0 <= k < width => AttnCell(n, k))
  }

  function MaskRow(ep: EncodedPrompt, width: nat): seq<int>
  {
    seq(width, k requires 0 <= k < width => MaskCell(ep, k))
  }

  /** The three padded matrices: one row per prompt, in prompt order. */
  function IdRows(eps: seq<EncodedPrompt>, width: nat): seq<seq<int>>
  {
    seq(|eps|, i requires 0 <= i < |eps| => IdRow(eps[i].encoding, width))
  }

  function AttnRows(eps: seq<EncodedPrompt>, width: nat): seq<seq<int>>
  {
    seq(|eps|, i requires 0 <= i < |eps| => AttnRow(|Flatten(eps[i].encoding)|, width))
  }

  function MaskRows(eps: seq<EncodedPrompt>, width: nat): seq<seq<int>>
  {
    seq(|eps|, i requires 0 <= i < |eps| => MaskRow(eps[i], width))
  }

  /** The `text_lengths` matrix: one single-cell row per entry. */
  function TextLengthMatrix(textLengths: seq<nat>): (r: seq<seq<int>>)
    ensures |r| == |textLengths|
    ensures forall i :: 0 <= i < |textLengths| ==> r[i] == [textLengths[i] as int]
  {
    seq(|textLengths|, i requires 0 <= i < |textLengths| => [textLengths[i] as int])
  }

  /** What `EncodedInput::from` returns for a batch and a tokenizer. */
  function Encode<Tok>(input: PromptInput<Tok>, tokenizer: Tokenizer): (r: Result<EncodedInput<Tok>>)
    ensures r.Ok? <==> EncodePrompts(input.prompts, tokenizer).Ok?
    ensures r.Ok? ==> |r.value.inputIds| == |r.value.attentionMasks| == |r.value.wordMasks| == |input.prompts|
    ensures r.Ok? ==> r.value.texts == input.texts && r.value.tokens == input.tokens &&
                      r.value.entities == input.entities && r.value.numWords == input.numWords
  {
    match EncodePrompts(input.prompts, tokenizer)
    case Err(e) => Err(e)
    case Ok(eps) =>
      var width := Width(eps);
      Ok(EncodedInput(input.texts, input.tokens, input.entities, input.numWords, width,
                      IdRows(eps, width), AttnRows(eps, width), MaskRows(eps, width),
                      TextLengthMatrix(input.textLengths)))
  }

  // ---------------------------------------------------------------------
  // Facts the two passes rely on
  // ---------------------------------------------------------------------

  /** Taking one more unit appends that unit's ids. */
  lemma PrefixStep(enc: seq<seq<U32>>, u: nat)
    requires u < |enc|
    ensures Flatten(enc[..u + 1]) == Flatten(enc[..u]) + enc[u]
  {
    assert enc[..u + 1][..u] == enc[..u];
  }

  /** Token `j` of unit `u` sits at index `|Flatten(enc[..u])| + j` of the flattened ids. */
  lemma FlattenAt(enc: seq<seq<U32>>, u: nat, j: nat)
    requires u < |enc| && j < |enc[u]|
    ensures |Flatten(enc[..u])| + j < |Flatten(enc)|
    ensures Flatten(enc)[|Flatten(enc[..u])| + j] == enc[u][j]
  {
    PrefixStep(enc, u);
    FlattenPrefix(enc, u + 1);
  }

  /** The counter after one more unit (source lines 95-98). */
  lemma WordIdStep(enc: seq<seq<U32>>, offset: nat, u: nat)
    requires u < |enc|
    ensures WordId(enc[..u + 1], offset) == WordId(enc[..u], offset) + (if Cursor(enc[..u + 1]) >= offset then 1 else 0)
  {
    assert enc[..u + 1][..u] == enc[..u];
  }

  /**
   * The word-mask cell of token `j` of unit `u`: the counter as it stood
   * before that unit when the cell's position reaches `offset`, else 0.
   */
  lemma {:induction false} MaskAt(enc: seq<seq<U32>>, offset: nat, u: nat, j: nat)
    requires u < |enc| && j < |enc[u]|
    ensures |Flatten(enc[..u])| + j < |MaskTokens(enc, offset)|
    ensures MaskTokens(enc, offset)[|Flatten(enc[..u])| + j]
         == if Cursor(enc[..u]) + j >= offset then WordId(enc[..u], offset) else 0
    decreases |enc|
  {
    var init := enc[..|enc| - 1];
    FlattenAt(enc, u, j);
    if u < |enc| - 1 {
      assert init[..u] == enc[..u];
      assert init[u] == enc[u];
      MaskAt(init, offset, u, j);
    } else {
      assert init == enc[..u];
    }
  }

  /** The cells of the three rows at the position of token `j` of unit `u`. */
  lemma CellsAt(ep: EncodedPrompt, u: nat, j: nat)
    requires u < |ep.encoding| && j < |ep.encoding[u]|
    ensures var k := Cursor(ep.encoding[..u]) + j;
      k <= |Flatten(ep.encoding)| &&
      IdCell(ep.encoding, k) == ep.encoding[u][j] &&
      AttnCell(|Flatten(ep.encoding)|, k) == 1 &&
      MaskCell(ep, k) == if k >= ep.textOffset then WordId(ep.encoding[..u], ep.textOffset) else 0
  {
    FlattenAt(ep.encoding, u, j);
    MaskAt(ep.encoding, ep.textOffset, u, j);
  }

  /** The cells covered by unit `u`, as the materialising pass writes them. */
  lemma UnitCells(ep: EncodedPrompt, u: nat)
    requires u < |ep.encoding|
    ensures Cursor(ep.encoding[..u + 1]) == Cursor(ep.encoding[..u]) + |ep.encoding[u]| <= Cursor(ep.encoding)
    ensures forall k :: Cursor(ep.encoding[..u]) <= k < Cursor(ep.encoding[..u + 1]) ==>
      IdCell(ep.encoding, k) == ep.encoding[u][k - Cursor(ep.encoding[..u])] &&
      AttnCell(|Flatten(ep.encoding)|, k) == 1 &&
      MaskCell(ep, k) == if k >= ep.textOffset then WordId(ep.encoding[..u], ep.textOffset) else 0
  {
    PrefixStep(ep.encoding, u);
    FlattenPrefix(ep.encoding, u + 1);
    var start := Cursor(ep.encoding[..u]);
    forall k | start <= k < Cursor(ep.encoding[..u + 1])
      ensures IdCell(ep.encoding, k) == ep.encoding[u][k - start]
      ensures AttnCell(|Flatten(ep.encoding)|, k) == 1
      ensures MaskCell(ep, k) == if k >= ep.textOffset then WordId(ep.encoding[..u], ep.textOffset) else 0
    {
      CellsAt(ep, u, k - start);
    }
  }

  /** Buffers filled cell by cell hold the specified rows. */
  lemma RowsFromCells(ep: EncodedPrompt, width: nat, ids: array<int>, attn: array<int>, mask: array<int>)
    requires ids.Length == attn.Length == mask.Length == width
    requires forall k :: 0 <= k < width ==> ids[k] == IdCell(ep.encoding, k) && attn[k] == AttnCell(|Flatten(ep.encoding)|, k) && mask[k] == MaskCell(ep, k)
    ensures ids[..] == IdRow(ep.encoding, width)
    ensures attn[..] == AttnRow(|Flatten(ep.encoding)|, width)
    ensures mask[..] == MaskRow(ep, width)
  {
  }

  /** Encoding one more unit: the prefix's encoding grows by it, or the tokenizer's error is the result. */
  lemma UnitsStep(units: seq<string>, pos: nat, tokenizer: Tokenizer, enc: seq<seq<U32>>)
    requires pos < |units|
    requires EncodeUnits(units[..pos], tokenizer) == Ok(enc)
    ensures tokenizer(units[pos]).Ok? ==> EncodeUnits(units[..pos + 1], tokenizer) == Ok(enc + [tokenizer(units[pos]).value])
    ensures tokenizer(units[pos]).Err? ==> EncodeUnits(units[..pos + 1], tokenizer) == Err(tokenizer(units[pos]).error)
  {
    assert units[..pos + 1][..pos] == units[..pos];
  }

  /** Sizing one more prompt: the prefix's result grows by it, or its error is the result. */
  lemma PromptsStep(prompts: seq<Prompt>, p: nat, tokenizer: Tokenizer, eps: seq<EncodedPrompt>)
    requires p < |prompts|
    requires EncodePrompts(prompts[..p], tokenizer) == Ok(eps)
    ensures EncodePrompt(prompts[p], tokenizer).Ok? ==>
      EncodePrompts(prompts[..p + 1], tokenizer) == Ok(eps + [EncodePrompt(prompts[p], tokenizer).value])
    ensures EncodePrompt(prompts[p], tokenizer).Err? ==>
      EncodePrompts(prompts[..p + 1], tokenizer) == Err(EncodePrompt(prompts[p], tokenizer).error)
  {
    assert prompts[..p + 1][..p] == prompts[..p];
  }

  lemma WidthSnoc(eps: seq<EncodedPrompt>, ep: EncodedPrompt)
    ensures Width(eps + [ep]) == Max(Width(eps), TotalTokens(ep))
  {
    assert (eps + [ep])[..|eps|] == eps;
  }

  /** `total_entity_tokens` grows by a unit's length exactly when its position is `<= entitiesLen`. */
  lemma TextOffsetStep(enc: seq<seq<U32>>, word: seq<U32>, entitiesLen: nat)
    ensures TextOffset(enc + [word], entitiesLen) == TextOffset(enc, entitiesLen) + (if |enc| <= entitiesLen then |word| else 0)
  {
    if |enc| <= entitiesLen {
      assert (enc + [word])[..|enc| + 1] == enc + [word];
      assert enc[..|enc|] == enc;
      FlattenSnoc(enc, word);
    } else {
      assert (enc + [word])[..entitiesLen + 1] == enc[..entitiesLen + 1];
    }
  }

  /** Once a prefix of the units fails, the whole prompt fails with the same error. */
  lemma {:induction false} UnitsErrorPropagates(units: seq<string>, k: nat, tokenizer: Tokenizer)
    requires k <= |units|
    requires EncodeUnits(units[..k], tokenizer).Err?
    ensures EncodeUnits(units, tokenizer) == EncodeUnits(units[..k], tokenizer)
    decreases |units|
  {
    if k < |units| {
      var init := units[..|units| - 1];
      assert init[..k] == units[..k];
      UnitsErrorPropagates(init, k, tokenizer);
    } else {
      assert units[..k] == units;
    }
  }

  /** Once a prefix of the prompts fails, the whole batch fails with the same error. */
  lemma {:induction false} PromptsErrorPropagates(prompts: seq<Prompt>, k: nat, tokenizer: Tokenizer)
    requires k <= |prompts|
    requires EncodePrompts(prompts[..k], tokenizer).Err?
    ensures EncodePrompts(prompts, tokenizer) == EncodePrompts(prompts[..k], tokenizer)
    decreases |prompts|
  {
    if k < |prompts| {
      var init := prompts[..|prompts| - 1];
      assert init[..k] == prompts[..k];
      PromptsErrorPropagates(init, k, tokenizer);
    } else {
      assert prompts[..k] == prompts;
    }
  }

  // ---------------------------------------------------------------------
  // The encoder
  // ---------------------------------------------------------------------

  /**
   * Writes the sub-word tokens of one unit from the cursor `idx` on (source
   * lines 84-94): its ids, attention 1, and the counter `wordId` in the word
   * mask for each position at or past `offset`.
   */
  method WriteUnit(ids: array<int>, attn: array<int>, mask: array<int>, idx: nat, word: seq<U32>, wordId: nat, offset: nat)
    returns (next: nat)
    requires ids != attn && ids != mask && attn != mask
    requires idx + |word| <= ids.Length && attn.Length == ids.Length && mask.Length == ids.Length
    modifies ids, attn, mask
    ensures next == idx + |word|
    ensures forall k :: 0 <= k < ids.Length && !(idx <= k < next) ==>
      ids[k] == old(ids[k]) && attn[k] == old(attn[k]) && mask[k] == old(mask[k])
    ensures forall k :: idx <= k < next ==> ids[k] == word[k - idx] && attn[k] == 1
    ensures forall k :: idx <= k < next ==> mask[k] == if k >= offset then wordId else old(mask[k])
  {
    next := idx;
    for t := 0 to |word|
      invariant next == idx + t
      invariant forall k :: 0 <= k < ids.Length && !(idx <= k < next) ==>
        ids[k] == old(ids[k]) && attn[k] == old(attn[k]) && mask[k] == old(mask[k])
      invariant forall k :: idx <= k < next ==> ids[k] == word[k - idx] && attn[k] == 1
      invariant forall k :: idx <= k < next ==> mask[k] == if k >= offset then wordId else old(mask[k])
    {
      ids[next] := word[t];
      attn[next] := 1;
      if next >= offset {
        mask[next] := wordId;
      }
      next := next + 1;
    }
  }

  /**
   * The loop over the units of one prompt (source lines 83-99): writes each
   * unit through `WriteUnit`, then advances the counter `wordId` when the
   * cursor has reached `offset`.
   */
  method WriteUnits(ep: EncodedPrompt, ids: array<int>, attn: array<int>, mask: array<int>) returns (idx: nat)
    requires ids != attn && ids != mask && attn != mask
    requires TotalTokens(ep) <= ids.Length && attn.Length == ids.Length && mask.Length == ids.Length
    requires ids[0] == IdCell(ep.encoding, 0) && attn[0] == AttnCell(|Flatten(ep.encoding)|, 0) && mask[0] == MaskCell(ep, 0)
    requires forall k :: 1 <= k < ids.Length ==> ids[k] == 0 && attn[k] == 0 && mask[k] == 0
    modifies ids, attn, mask
    ensures idx == Cursor(ep.encoding)
    ensures forall k :: 0 <= k < idx ==>
      ids[k] == IdCell(ep.encoding, k) && attn[k] == AttnCell(|Flatten(ep.encoding)|, k) && mask[k] == MaskCell(ep, k)
    ensures forall k :: idx <= k < ids.Length ==> ids[k] == 0 && attn[k] == 0 && mask[k] == 0
  {
    var enc := ep.encoding;
    var offset := ep.textOffset;
    ghost var n := |Flatten(enc)|;
    idx := 1;
    var wordId: nat := 0;
    assert enc[..0] == [];

    for w := 0 to |enc|
      invariant idx == Cursor(enc[..w]) <= Cursor(enc)
      invariant wordId == WordId(enc[..w], offset)
      invariant forall k :: 0 <= k < idx ==> ids[k] == IdCell(enc, k) && attn[k] == AttnCell(n, k) && mask[k] == MaskCell(ep, k)
      invariant forall k :: idx <= k < ids.Length ==> ids[k] == 0 && attn[k] == 0 && mask[k] == 0
    {
      UnitCells(ep, w);
      ghost var start := idx;
      idx := WriteUnit(ids, attn, mask, idx, enc[w], wordId, offset);
      assert forall k :: start <= k < idx ==>
        ids[k] == IdCell(enc, k) && attn[k] == AttnCell(n, k) && mask[k] == MaskCell(ep, k);
      WordIdStep(enc, offset, w);
      if idx >= offset {
        wordId := wordId + 1;
      }
    }
    assert enc[..|enc|] == enc;
  }

  /**
   * Materialising pass for one prompt (source lines 69-103): zeroed buffers
   * of width `width`, the start marker, the units, the end marker.
   */
  method Materialise(ep: EncodedPrompt, width: nat) returns (inputId: seq<int>, attnMask: seq<int>, wordMask: seq<int>)
    requires TotalTokens(ep) <= width
    ensures inputId == IdRow(ep.encoding, width)
    ensures attnMask == AttnRow(|Flatten(ep.encoding)|, width)
    ensures wordMask == MaskRow(ep, width)
  {
    var ids := new int[width](_ => 0);
    var attn := new int[width](_ => 0);
    var mask := new int[width](_ => 0);

    // start marker
    ids[0] := StartId;
    attn[0] := 1;

    var idx := WriteUnits(ep, ids, attn, mask);

    // end marker
    ids[idx] := EndId;
    attn[idx] := 1;

    RowsFromCells(ep, width, ids, attn, mask);
    inputId := ids[..];
    attnMask := attn[..];
    wordMask := mask[..];
  }

  /**
   * Sizing pass for one prompt (source lines 40-58): encodes the units in
   * order, accumulating `total_tokens` and `total_entity_tokens`, and stops
   * at the first tokenizer failure.
   */
  method SizePrompt(prompt: Prompt, tokenizer: Tokenizer) returns (r: Result<EncodedPrompt>, totalTokens: nat)
    ensures r == EncodePrompt(prompt, tokenizer)
    ensures r.Ok? ==> totalTokens == TotalTokens(r.value)
  {
    var units := prompt.units;
    var promptTokens: seq<seq<U32>> := [];
    totalTokens := 2;
    var totalEntityTokens: nat := 0;

    for pos := 0 to |units|
      invariant EncodeUnits(units[..pos], tokenizer) == Ok(promptTokens)
      invariant |promptTokens| == pos
      invariant totalTokens == 2 + |Flatten(promptTokens)|
      invariant totalEntityTokens == TextOffset(promptTokens, prompt.entitiesLen)
    {
      UnitsStep(units, pos, tokenizer, promptTokens);
      var encoding := tokenizer(units[pos]);
      if encoding.Err? {
        UnitsErrorPropagates(units, pos + 1, tokenizer);
        return Err(encoding.error), totalTokens;
      }
      var word := encoding.value;
      FlattenSnoc(promptTokens, word);
      TextOffsetStep(promptTokens, word, prompt.entitiesLen);
      totalTokens := totalTokens + |word|;
      if pos <= prompt.entitiesLen {
        totalEntityTokens := totalEntityTokens + |word|;
      }
      promptTokens := promptTokens + [word];
    }

    assert units[..|units|] == units;
    r := Ok(EncodedPrompt(promptTokens, totalEntityTokens));
  }

  /**
   * Sizing pass over the batch (source lines 34-60): keeps the batch maximum
   * `max_tokens` and returns at the first tokenizer failure.
   */
  method SizeBatch(prompts: seq<Prompt>, tokenizer: Tokenizer) returns (r: Result<seq<EncodedPrompt>>, maxTokens: nat)
    ensures r == EncodePrompts(prompts, tokenizer)
    ensures r.Ok? ==> maxTokens == Width(r.value)
  {
    var encodings: seq<EncodedPrompt> := [];
    maxTokens := 0;

    for p := 0 to |prompts|
      invariant EncodePrompts(prompts[..p], tokenizer) == Ok(encodings)
      invariant maxTokens == Width(encodings)
    {
      PromptsStep(prompts, p, tokenizer, encodings);
      var encoded, totalTokens := SizePrompt(prompts[p], tokenizer);
      if encoded.Err? {
        // the whole batch fails with this error
        PromptsErrorPropagates(prompts, p + 1, tokenizer);
        return Err(encoded.error), maxTokens;
      }
      WidthSnoc(encodings, encoded.value);
      encodings := encodings + [encoded.value];
      maxTokens := Max(maxTokens, totalTokens);
    }
    assert prompts[..|prompts|] == prompts;
    r := Ok(encodings);
  }

  /**
   * Materialising pass over the batch (source lines 65-109): one row of each
   * matrix per prompt, in prompt order, all of width `width`.
   */
  method MaterialiseBatch(encodings: seq<EncodedPrompt>, width: nat)
    returns (inputIds: seq<seq<int>>, attentionMasks: seq<seq<int>>, wordMasks: seq<seq<int>>)
    requires forall i :: 0 <= i < |encodings| ==> TotalTokens(encodings[i]) <= width
    ensures inputIds == IdRows(encodings, width)
    ensures attentionMasks == AttnRows(encodings, width)
    ensures wordMasks == MaskRows(encodings, width)
  {
    inputIds, attentionMasks, wordMasks := [], [], [];
    for e := 0 to |encodings|
      invariant |inputIds| == |attentionMasks| == |wordMasks| == e
      invariant forall i :: 0 <= i < e ==> inputIds[i] == IdRow(encodings[i].encoding, width)
      invariant forall i :: 0 <= i < e ==> attentionMasks[i] == AttnRow(|Flatten(encodings[i].encoding)|, width)
      invariant forall i :: 0 <= i < e ==> wordMasks[i] == MaskRow(encodings[i], width)
    {
      var inputId, attnMask, wordMask := Materialise(encodings[e], width);
      inputIds := inputIds + [inputId];
      attentionMasks := attentionMasks + [attnMask];
      wordMasks := wordMasks + [wordMask];
    }
  }

  /** `text_lengths`: one single-cell row per entry (source lines 112-115). */
  method TextLengthRows(textLengths: seq<nat>) returns (rows: seq<seq<int>>)
    ensures rows == TextLengthMatrix(textLengths)
  {
    rows := [];
    for t := 0 to |textLengths|
      invariant |rows| == t
      invariant forall i :: 0 <= i < t ==> rows[i] == [textLengths[i] as int]
    {
      rows := rows + [[textLengths[t] as int]];
    }
  }

  /**
   * `EncodedInput::from`: the sizing pass, the materialising pass, the
   * `text_lengths` rows, and the other fields passed through (source lines
   * 32-129).
   */
  method From<Tok>(input: PromptInput<Tok>, tokenizer: Tokenizer) returns (r: Result<EncodedInput<Tok>>)
    ensures r == Encode(input, tokenizer)
  {
    var sized, maxTokens := SizeBatch(input.prompts, tokenizer);
    if sized.Err? {
      return Err(sized.error);
    }
    var encodings := sized.value;
    var inputIds, attentionMasks, wordMasks := MaterialiseBatch(encodings, maxTokens);
    var textLengths := TextLengthRows(input.textLengths);
    r := Ok(EncodedInput(input.texts, input.tokens, input.entities, input.numWords, maxTokens,
                         inputIds, attentionMasks, wordMasks, textLengths));
  }

  /** `PromptsToEncoded`: the composable pre-processing stage holding the tokenizer. */
  datatype PromptsToEncoded = PromptsToEncoded(tokenizer: Tokenizer)
  {
    /** `apply` only delegates to `EncodedInput::from` (source lines 146-149). */
    method Apply<Tok>(input: PromptInput<Tok>) returns (r: Result<EncodedInput<Tok>>)
      ensures r == Encode(input, tokenizer)
    {
      r := From(input, tokenizer);
    }
  }
}
