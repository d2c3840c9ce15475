/*
 * What the model gives for the three batches of the encoder's unit tests
 * (src/model/input/encoded.rs, lines 159-261), stated and proved lemma by
 * lemma. The tokenizer is a parameter that encodes each unit to the ids
 * listed here: for the second batch these are the ids its test expects; for
 * the other two they are stand-ins that give every unit the number of
 * sub-words the totals in those tests imply.
 */
module EncodedScenarios {
  import opened Encoded
  import opened EncodedProps

  /** `tokenizer` encodes each of `units` to the ids at the same position. */
  predicate EncodesAs(tokenizer: Tokenizer, units: seq<string>, ids: seq<seq<U32>>)
  {
    |units| == |ids| && forall k :: 0 <= k < |units| ==> tokenizer(units[k]) == Ok(ids[k])
  }

  /**
   * The output for a batch whose prompts encode to `eps`, of width `width`,
   * with the matrices `ids`, `attn`, `masks` and `lengths`.
   */
  lemma BatchOutput<Tok>(input: PromptInput<Tok>, tokenizer: Tokenizer, eps: seq<EncodedPrompt>, width: nat,
                         ids: seq<seq<int>>, attn: seq<seq<int>>, masks: seq<seq<int>>, lengths: seq<seq<int>>)
    requires EncodePrompts(input.prompts, tokenizer) == Ok(eps) && Width(eps) == width
    requires IdRows(eps, width) == ids && AttnRows(eps, width) == attn && MaskRows(eps, width) == masks
    requires TextLengthMatrix(input.textLengths) == lengths
    ensures Encode(input, tokenizer) == Ok(EncodedInput(input.texts, input.tokens, input.entities, input.numWords, width,
                                                        ids, attn, masks, lengths))
  {
  }

  // ---------------------------------------------------------------------
  // Stepping through one prompt
  // ---------------------------------------------------------------------

  /** The cursor after one more unit. */
  lemma CursorStep(enc: seq<seq<U32>>, u: nat, c: nat)
    requires u < |enc| && Cursor(enc[..u]) == c
    ensures Cursor(enc[..u + 1]) == c + |enc[u]|
  {
    PrefixStep(enc, u);
  }

  /** The `input_ids` cell of sub-word `j` of unit `u`, when that unit starts at `c`. */
  lemma IdAt(enc: seq<seq<U32>>, u: nat, j: nat, c: nat)
    requires u < |enc| && j < |enc[u]| && Cursor(enc[..u]) == c
    ensures IdCell(enc, c + j) == enc[u][j]
  {
    CellsAt(EncodedPrompt(enc, 0), u, j);
  }

  /** The `word_masks` cell of sub-word `j` of unit `u`, when that unit starts at `c` with counter `w`. */
  lemma MaskCellAt(ep: EncodedPrompt, u: nat, j: nat, c: nat, w: nat)
    requires u < |ep.encoding| && j < |ep.encoding[u]|
    requires Cursor(ep.encoding[..u]) == c && WordId(ep.encoding[..u], ep.textOffset) == w
    ensures MaskCell(ep, c + j) == if c + j >= ep.textOffset then w else 0
  {
    CellsAt(ep, u, j);
  }

  // ---------------------------------------------------------------------
  // Second test: two prompts of 13 and 15 cells
  // ---------------------------------------------------------------------

  /** The units of the prompt for "My name is James Bond". */
  const JamesBondUnits: seq<string> := ["<<ENT>>", "movie character", "<<ENT>>", "vehicle", "<<SEP>>", "My", "name", "is", "James", "Bond"]
  const JamesBondIds: seq<seq<U32>> := [[128002], [1421, 1470], [128002], [1508], [128003], [573], [601], [269], [1749], [8728]]

  /** Where units 0 to 3 of a prompt shaped like the one for "My name is James Bond" end, and the counter after each. */
  lemma JamesBondSteps0(enc: seq<seq<U32>>)
    requires |enc| == 10 && |enc[0]| == 1 && |enc[1]| == 2 && |enc[2]| == 1 && |enc[3]| == 1
    ensures Cursor(enc[..0]) == 1 && WordId(enc[..0], 7) == 0
    ensures Cursor(enc[..1]) == 2 && WordId(enc[..1], 7) == 0
    ensures Cursor(enc[..2]) == 4 && WordId(enc[..2], 7) == 0
    ensures Cursor(enc[..3]) == 5 && WordId(enc[..3], 7) == 0
    ensures Cursor(enc[..4]) == 6 && WordId(enc[..4], 7) == 0
  {
    assert enc[..0] == [];
    CursorStep(enc, 0, 1);
    WordIdStep(enc, 7, 0);
    CursorStep(enc, 1, 2);
    WordIdStep(enc, 7, 1);
    CursorStep(enc, 2, 4);
    WordIdStep(enc, 7, 2);
    CursorStep(enc, 3, 5);
    WordIdStep(enc, 7, 3);
  }

  /** Where units 4 to 7 of a prompt shaped like the one for "My name is James Bond" end, and the counter after each. */
  lemma JamesBondSteps1(enc: seq<seq<U32>>)
    requires |enc| == 10 && |enc[4]| == 1 && |enc[5]| == 1 && |enc[6]| == 1 && |enc[7]| == 1
    requires Cursor(enc[..4]) == 6 && WordId(enc[..4], 7) == 0
    ensures Cursor(enc[..5]) == 7 && WordId(enc[..5], 7) == 1
    ensures Cursor(enc[..6]) == 8 && WordId(enc[..6], 7) == 2
    ensures Cursor(enc[..7]) == 9 && WordId(enc[..7], 7) == 3
    ensures Cursor(enc[..8]) == 10 && WordId(enc[..8], 7) == 4
  {
    CursorStep(enc, 4, 6);
    WordIdStep(enc, 7, 4);
    CursorStep(enc, 5, 7);
    WordIdStep(enc, 7, 5);
    CursorStep(enc, 6, 8);
    WordIdStep(enc, 7, 6);
    CursorStep(enc, 7, 9);
    WordIdStep(enc, 7, 7);
  }

  /** Where units 8 to 9 of a prompt shaped like the one for "My name is James Bond" end, and the counter after each. */
  lemma JamesBondSteps2(enc: seq<seq<U32>>)
    requires |enc| == 10 && |enc[8]| == 1 && |enc[9]| == 1
    requires Cursor(enc[..8]) == 10 && WordId(enc[..8], 7) == 4
    ensures Cursor(enc[..9]) == 11 && WordId(enc[..9], 7) == 5
    ensures Cursor(enc[..10]) == 12 && WordId(enc[..10], 7) == 6
    ensures Cursor(enc) == 12
  {
    assert enc[..10] == enc;
    CursorStep(enc, 8, 10);
    WordIdStep(enc, 7, 8);
    CursorStep(enc, 9, 11);
    WordIdStep(enc, 7, 9);
  }

  /** Where units 0 to 3 of the prompt for "My name is James Bond" end, and the counter after each. */
  lemma JamesBondLayout0()
    ensures Cursor(JamesBondIds[..0]) == 1 && WordId(JamesBondIds[..0], 7) == 0
    ensures Cursor(JamesBondIds[..1]) == 2 && WordId(JamesBondIds[..1], 7) == 0
    ensures Cursor(JamesBondIds[..2]) == 4 && WordId(JamesBondIds[..2], 7) == 0
    ensures Cursor(JamesBondIds[..3]) == 5 && WordId(JamesBondIds[..3], 7) == 0
    ensures Cursor(JamesBondIds[..4]) == 6 && WordId(JamesBondIds[..4], 7) == 0
  {
    JamesBondSteps0(JamesBondIds);
  }

  /** Where units 4 to 7 of the prompt for "My name is James Bond" end, and the counter after each. */
  lemma JamesBondLayout1()
    ensures Cursor(JamesBondIds[..5]) == 7 && WordId(JamesBondIds[..5], 7) == 1
    ensures Cursor(JamesBondIds[..6]) == 8 && WordId(JamesBondIds[..6], 7) == 2
    ensures Cursor(JamesBondIds[..7]) == 9 && WordId(JamesBondIds[..7], 7) == 3
    ensures Cursor(JamesBondIds[..8]) == 10 && WordId(JamesBondIds[..8], 7) == 4
  {
    JamesBondLayout0();
    JamesBondSteps1(JamesBondIds);
  }

  /** Where units 8 to 9 of the prompt for "My name is James Bond" end, and the counter after each. */
  lemma JamesBondLayout2()
    ensures Cursor(JamesBondIds[..9]) == 11 && WordId(JamesBondIds[..9], 7) == 5
    ensures Cursor(JamesBondIds[..10]) == 12 && WordId(JamesBondIds[..10], 7) == 6
    ensures Cursor(JamesBondIds) == 12
  {
    JamesBondLayout1();
    JamesBondSteps2(JamesBondIds);
  }

  /** The sizing pass accepts the prompt for "My name is James Bond": 11 sub-words, text from cell 7. */
  lemma JamesBondSizing(tokenizer: Tokenizer)
    requires EncodesAs(tokenizer, JamesBondUnits, JamesBondIds)
    ensures EncodePrompt(Prompt(JamesBondUnits, 5), tokenizer) == Ok(EncodedPrompt(JamesBondIds, 7))
    ensures TotalTokens(EncodedPrompt(JamesBondIds, 7)) == 13
  {
    UnitsEncodeToTheirIds(JamesBondUnits, tokenizer, JamesBondIds);
    JamesBondLayout0();
    JamesBondLayout1();
    JamesBondLayout2();
  }

  /** The `input_ids` row of "My name is James Bond" in a batch 15 cells wide. */
  lemma JamesBondIdRow()
    ensures IdRow(JamesBondIds, 15) == [1, 128002, 1421, 1470, 128002, 1508, 128003, 573, 601, 269, 1749, 8728, 2, 0, 0]
  {
    JamesBondLayout0();
    JamesBondLayout1();
    JamesBondLayout2();
    IdAt(JamesBondIds, 0, 0, 1);
    IdAt(JamesBondIds, 1, 0, 2);
    IdAt(JamesBondIds, 1, 1, 2);
    IdAt(JamesBondIds, 2, 0, 4);
    IdAt(JamesBondIds, 3, 0, 5);
    IdAt(JamesBondIds, 4, 0, 6);
    IdAt(JamesBondIds, 5, 0, 7);
    IdAt(JamesBondIds, 6, 0, 8);
    IdAt(JamesBondIds, 7, 0, 9);
    IdAt(JamesBondIds, 8, 0, 10);
    IdAt(JamesBondIds, 9, 0, 11);
  }

  /** The `word_masks` row of "My name is James Bond" in a batch 15 cells wide. */
  lemma JamesBondMaskRow()
    ensures MaskRow(EncodedPrompt(JamesBondIds, 7), 15) == [0, 0, 0, 0, 0, 0, 0, 1, 2, 3, 4, 5, 0, 0, 0]
  {
    var ep := EncodedPrompt(JamesBondIds, 7);
    JamesBondLayout0();
    JamesBondLayout1();
    JamesBondLayout2();
    MaskCellAt(ep, 0, 0, 1, 0);
    MaskCellAt(ep, 1, 0, 2, 0);
    MaskCellAt(ep, 1, 1, 2, 0);
    MaskCellAt(ep, 2, 0, 4, 0);
    MaskCellAt(ep, 3, 0, 5, 0);
    MaskCellAt(ep, 4, 0, 6, 0);
    MaskCellAt(ep, 5, 0, 7, 1);
    MaskCellAt(ep, 6, 0, 8, 2);
    MaskCellAt(ep, 7, 0, 9, 3);
    MaskCellAt(ep, 8, 0, 10, 4);
    MaskCellAt(ep, 9, 0, 11, 5);
  }

  /** The units of the prompt for "I like to drive my Aston Martin". */
  const AstonMartinUnits: seq<string> := ["<<ENT>>", "movie character", "<<ENT>>", "vehicle", "<<SEP>>", "I", "like", "to", "drive", "my", "Aston", "Martin"]
  const AstonMartinIds: seq<seq<U32>> := [[128002], [1421, 1470], [128002], [1508], [128003], [273], [334], [264], [1168], [312], [20844], [2963]]

  /** Where units 0 to 3 of a prompt shaped like the one for "I like to drive my Aston Martin" end, and the counter after each. */
  lemma AstonMartinSteps0(enc: seq<seq<U32>>)
    requires |enc| == 12 && |enc[0]| == 1 && |enc[1]| == 2 && |enc[2]| == 1 && |enc[3]| == 1
    ensures Cursor(enc[..0]) == 1 && WordId(enc[..0], 7) == 0
    ensures Cursor(enc[..1]) == 2 && WordId(enc[..1], 7) == 0
    ensures Cursor(enc[..2]) == 4 && WordId(enc[..2], 7) == 0
    ensures Cursor(enc[..3]) == 5 && WordId(enc[..3], 7) == 0
    ensures Cursor(enc[..4]) == 6 && WordId(enc[..4], 7) == 0
  {
    assert enc[..0] == [];
    CursorStep(enc, 0, 1);
    WordIdStep(enc, 7, 0);
    CursorStep(enc, 1, 2);
    WordIdStep(enc, 7, 1);
    CursorStep(enc, 2, 4);
    WordIdStep(enc, 7, 2);
    CursorStep(enc, 3, 5);
    WordIdStep(enc, 7, 3);
  }

  /** Where units 4 to 7 of a prompt shaped like the one for "I like to drive my Aston Martin" end, and the counter after each. */
  lemma AstonMartinSteps1(enc: seq<seq<U32>>)
    requires |enc| == 12 && |enc[4]| == 1 && |enc[5]| == 1 && |enc[6]| == 1 && |enc[7]| == 1
    requires Cursor(enc[..4]) == 6 && WordId(enc[..4], 7) == 0
    ensures Cursor(enc[..5]) == 7 && WordId(enc[..5], 7) == 1
    ensures Cursor(enc[..6]) == 8 && WordId(enc[..6], 7) == 2
    ensures Cursor(enc[..7]) == 9 && WordId(enc[..7], 7) == 3
    ensures Cursor(enc[..8]) == 10 && WordId(enc[..8], 7) == 4
  {
    CursorStep(enc, 4, 6);
    WordIdStep(enc, 7, 4);
    CursorStep(enc, 5, 7);
    WordIdStep(enc, 7, 5);
    CursorStep(enc, 6, 8);
    WordIdStep(enc, 7, 6);
    CursorStep(enc, 7, 9);
    WordIdStep(enc, 7, 7);
  }

  /** Where units 8 to 11 of a prompt shaped like the one for "I like to drive my Aston Martin" end, and the counter after each. */
  lemma AstonMartinSteps2(enc: seq<seq<U32>>)
    requires |enc| == 12 && |enc[8]| == 1 && |enc[9]| == 1 && |enc[10]| == 1 && |enc[11]| == 1
    requires Cursor(enc[..8]) == 10 && WordId(enc[..8], 7) == 4
    ensures Cursor(enc[..9]) == 11 && WordId(enc[..9], 7) == 5
    ensures Cursor(enc[..10]) == 12 && WordId(enc[..10], 7) == 6
    ensures Cursor(enc[..11]) == 13 && WordId(enc[..11], 7) == 7
    ensures Cursor(enc[..12]) == 14 && WordId(enc[..12], 7) == 8
    ensures Cursor(enc) == 14
  {
    assert enc[..12] == enc;
    CursorStep(enc, 8, 10);
    WordIdStep(enc, 7, 8);
    CursorStep(enc, 9, 11);
    WordIdStep(enc, 7, 9);
    CursorStep(enc, 10, 12);
    WordIdStep(enc, 7, 10);
    CursorStep(enc, 11, 13);
    WordIdStep(enc, 7, 11);
  }

  /** Where units 0 to 3 of the prompt for "I like to drive my Aston Martin" end, and the counter after each. */
  lemma AstonMartinLayout0()
    ensures Cursor(AstonMartinIds[..0]) == 1 && WordId(AstonMartinIds[..0], 7) == 0
    ensures Cursor(AstonMartinIds[..1]) == 2 && WordId(AstonMartinIds[..1], 7) == 0
    ensures Cursor(AstonMartinIds[..2]) == 4 && WordId(AstonMartinIds[..2], 7) == 0
    ensures Cursor(AstonMartinIds[..3]) == 5 && WordId(AstonMartinIds[..3], 7) == 0
    ensures Cursor(AstonMartinIds[..4]) == 6 && WordId(AstonMartinIds[..4], 7) == 0
  {
    AstonMartinSteps0(AstonMartinIds);
  }

  /** Where units 4 to 7 of the prompt for "I like to drive my Aston Martin" end, and the counter after each. */
  lemma AstonMartinLayout1()
    ensures Cursor(AstonMartinIds[..5]) == 7 && WordId(AstonMartinIds[..5], 7) == 1
    ensures Cursor(AstonMartinIds[..6]) == 8 && WordId(AstonMartinIds[..6], 7) == 2
    ensures Cursor(AstonMartinIds[..7]) == 9 && WordId(AstonMartinIds[..7], 7) == 3
    ensures Cursor(AstonMartinIds[..8]) == 10 && WordId(AstonMartinIds[..8], 7) == 4
  {
    AstonMartinLayout0();
    AstonMartinSteps1(AstonMartinIds);
  }

  /** Where units 8 to 11 of the prompt for "I like to drive my Aston Martin" end, and the counter after each. */
  lemma AstonMartinLayout2()
    ensures Cursor(AstonMartinIds[..9]) == 11 && WordId(AstonMartinIds[..9], 7) == 5
    ensures Cursor(AstonMartinIds[..10]) == 12 && WordId(AstonMartinIds[..10], 7) == 6
    ensures Cursor(AstonMartinIds[..11]) == 13 && WordId(AstonMartinIds[..11], 7) == 7
    ensures Cursor(AstonMartinIds[..12]) == 14 && WordId(AstonMartinIds[..12], 7) == 8
    ensures Cursor(AstonMartinIds) == 14
  {
    AstonMartinLayout1();
    AstonMartinSteps2(AstonMartinIds);
  }

  /** The sizing pass accepts the prompt for "I like to drive my Aston Martin": 13 sub-words, text from cell 7. */
  lemma AstonMartinSizing(tokenizer: Tokenizer)
    requires EncodesAs(tokenizer, AstonMartinUnits, AstonMartinIds)
    ensures EncodePrompt(Prompt(AstonMartinUnits, 5), tokenizer) == Ok(EncodedPrompt(AstonMartinIds, 7))
    ensures TotalTokens(EncodedPrompt(AstonMartinIds, 7)) == 15
  {
    UnitsEncodeToTheirIds(AstonMartinUnits, tokenizer, AstonMartinIds);
    AstonMartinLayout0();
    AstonMartinLayout1();
    AstonMartinLayout2();
  }

  /** The `input_ids` row of "I like to drive my Aston Martin" in a batch 15 cells wide. */
  lemma AstonMartinIdRow()
    ensures IdRow(AstonMartinIds, 15) == [1, 128002, 1421, 1470, 128002, 1508, 128003, 273, 334, 264, 1168, 312, 20844, 2963, 2]
  {
    AstonMartinLayout0();
    AstonMartinLayout1();
    AstonMartinLayout2();
    IdAt(AstonMartinIds, 0, 0, 1);
    IdAt(AstonMartinIds, 1, 0, 2);
    IdAt(AstonMartinIds, 1, 1, 2);
    IdAt(AstonMartinIds, 2, 0, 4);
    IdAt(AstonMartinIds, 3, 0, 5);
    IdAt(AstonMartinIds, 4, 0, 6);
    IdAt(AstonMartinIds, 5, 0, 7);
    IdAt(AstonMartinIds, 6, 0, 8);
    IdAt(AstonMartinIds, 7, 0, 9);
    IdAt(AstonMartinIds, 8, 0, 10);
    IdAt(AstonMartinIds, 9, 0, 11);
    IdAt(AstonMartinIds, 10, 0, 12);
    IdAt(AstonMartinIds, 11, 0, 13);
  }

  /** The `word_masks` row of "I like to drive my Aston Martin" in a batch 15 cells wide. */
  lemma AstonMartinMaskRow()
    ensures MaskRow(EncodedPrompt(AstonMartinIds, 7), 15) == [0, 0, 0, 0, 0, 0, 0, 1, 2, 3, 4, 5, 6, 7, 0]
  {
    var ep := EncodedPrompt(AstonMartinIds, 7);
    AstonMartinLayout0();
    AstonMartinLayout1();
    AstonMartinLayout2();
    MaskCellAt(ep, 0, 0, 1, 0);
    MaskCellAt(ep, 1, 0, 2, 0);
    MaskCellAt(ep, 1, 1, 2, 0);
    MaskCellAt(ep, 2, 0, 4, 0);
    MaskCellAt(ep, 3, 0, 5, 0);
    MaskCellAt(ep, 4, 0, 6, 0);
    MaskCellAt(ep, 5, 0, 7, 1);
    MaskCellAt(ep, 6, 0, 8, 2);
    MaskCellAt(ep, 7, 0, 9, 3);
    MaskCellAt(ep, 8, 0, 10, 4);
    MaskCellAt(ep, 9, 0, 11, 5);
    MaskCellAt(ep, 10, 0, 12, 6);
    MaskCellAt(ep, 11, 0, 13, 7);
  }

  // ---------------------------------------------------------------------
  // Second test: the whole output
  // ---------------------------------------------------------------------

  /** The `input_ids` matrix of the second test. */
  lemma SecondTestIdsMatrix()
    ensures IdRows([EncodedPrompt(JamesBondIds, 7), EncodedPrompt(AstonMartinIds, 7)], 15) ==
        [[1, 128002, 1421, 1470, 128002, 1508, 128003, 573, 601, 269, 1749, 8728, 2, 0, 0],
         [1, 128002, 1421, 1470, 128002, 1508, 128003, 273, 334, 264, 1168, 312, 20844, 2963, 2]]
  {
    JamesBondIdRow();
    AstonMartinIdRow();
  }

  /** The `attention_masks` matrix of the second test. */
  lemma SecondTestAttnMatrix()
    ensures AttnRows([EncodedPrompt(JamesBondIds, 7), EncodedPrompt(AstonMartinIds, 7)], 15) ==
        [[1, 1, 1, 1, 1, 1, 1, 1, 1, 1, 1, 1, 1, 0, 0],
         [1, 1, 1, 1, 1, 1, 1, 1, 1, 1, 1, 1, 1, 1, 1]]
  {
    JamesBondLayout2();
    assert AttnRow(11, 15) == [1, 1, 1, 1, 1, 1, 1, 1, 1, 1, 1, 1, 1, 0, 0];
    AstonMartinLayout2();
    assert AttnRow(13, 15) == [1, 1, 1, 1, 1, 1, 1, 1, 1, 1, 1, 1, 1, 1, 1];
  }

  /** The `word_masks` matrix of the second test. */
  lemma SecondTestMaskMatrix()
    ensures MaskRows([EncodedPrompt(JamesBondIds, 7), EncodedPrompt(AstonMartinIds, 7)], 15) ==
        [[0, 0, 0, 0, 0, 0, 0, 1, 2, 3, 4, 5, 0, 0, 0],
         [0, 0, 0, 0, 0, 0, 0, 1, 2, 3, 4, 5, 6, 7, 0]]
  {
    JamesBondMaskRow();
    AstonMartinMaskRow();
  }

  /** The `text_lengths` matrix of the second test: one single-cell row per text length. */
  lemma SecondTestTextLengths()
    ensures TextLengthMatrix([5, 7]) == [[5], [7]]
  {
    var r := TextLengthMatrix([5, 7]);
    assert |r| == 2 && r[0] == [5] && r[1] == [7];
  }

  /**
   * The second test (source lines 198-235): "My name is James Bond" and
   * "I like to drive my Aston Martin" with the labels "movie character" and
   * "vehicle" encode to exactly the rows that test expects.
   */
  lemma SecondTestBatch<Tok>(input: PromptInput<Tok>, tokenizer: Tokenizer)
    requires input.prompts == [Prompt(JamesBondUnits, 5), Prompt(AstonMartinUnits, 5)]
    requires input.textLengths == [5, 7]
    requires EncodesAs(tokenizer, JamesBondUnits, JamesBondIds) && EncodesAs(tokenizer, AstonMartinUnits, AstonMartinIds)
    ensures Encode(input, tokenizer) == Ok(EncodedInput(input.texts, input.tokens, input.entities, input.numWords, 15,
      [[1, 128002, 1421, 1470, 128002, 1508, 128003, 573, 601, 269, 1749, 8728, 2, 0, 0],
       [1, 128002, 1421, 1470, 128002, 1508, 128003, 273, 334, 264, 1168, 312, 20844, 2963, 2]],
      [[1, 1, 1, 1, 1, 1, 1, 1, 1, 1, 1, 1, 1, 0, 0],
       [1, 1, 1, 1, 1, 1, 1, 1, 1, 1, 1, 1, 1, 1, 1]],
      [[0, 0, 0, 0, 0, 0, 0, 1, 2, 3, 4, 5, 0, 0, 0],
       [0, 0, 0, 0, 0, 0, 0, 1, 2, 3, 4, 5, 6, 7, 0]],
      [[5], [7]]))
  {
    var eps := [EncodedPrompt(JamesBondIds, 7), EncodedPrompt(AstonMartinIds, 7)];
    JamesBondSizing(tokenizer);
    AstonMartinSizing(tokenizer);
    PromptsEncodeToTheirEncodings(input.prompts, tokenizer, eps);
    assert Width(eps) == 15;
    SecondTestIdsMatrix();
    SecondTestAttnMatrix();
    SecondTestMaskMatrix();
    SecondTestTextLengths();
    BatchOutput(input, tokenizer, eps, 15,
      [[1, 128002, 1421, 1470, 128002, 1508, 128003, 573, 601, 269, 1749, 8728, 2, 0, 0],
       [1, 128002, 1421, 1470, 128002, 1508, 128003, 273, 334, 264, 1168, 312, 20844, 2963, 2]],
      [[1, 1, 1, 1, 1, 1, 1, 1, 1, 1, 1, 1, 1, 0, 0],
       [1, 1, 1, 1, 1, 1, 1, 1, 1, 1, 1, 1, 1, 1, 1]],
      [[0, 0, 0, 0, 0, 0, 0, 1, 2, 3, 4, 5, 0, 0, 0],
       [0, 0, 0, 0, 0, 0, 0, 1, 2, 3, 4, 5, 6, 7, 0]],
      [[5], [7]]);
  }

  // ---------------------------------------------------------------------
  // First test: a short and a long prompt, 22 cells wide
  // ---------------------------------------------------------------------

  /** The units of the prompt for "Short text". */
  const ShortTextUnits: seq<string> := ["<<ENT>>", "Person", "<<ENT>>", "Place", "<<SEP>>", "Short", "text"]
  const ShortTextIds: seq<seq<U32>> := [[128002], [3000], [128002], [3001], [128003], [3002], [3003]]

  /** Where units 0 to 3 of a prompt shaped like the one for "Short text" end, and the counter after each. */
  lemma ShortTextSteps0(enc: seq<seq<U32>>)
    requires |enc| == 7 && |enc[0]| == 1 && |enc[1]| == 1 && |enc[2]| == 1 && |enc[3]| == 1
    ensures Cursor(enc[..0]) == 1 && WordId(enc[..0], 6) == 0
    ensures Cursor(enc[..1]) == 2 && WordId(enc[..1], 6) == 0
    ensures Cursor(enc[..2]) == 3 && WordId(enc[..2], 6) == 0
    ensures Cursor(enc[..3]) == 4 && WordId(enc[..3], 6) == 0
    ensures Cursor(enc[..4]) == 5 && WordId(enc[..4], 6) == 0
  {
    assert enc[..0] == [];
    CursorStep(enc, 0, 1);
    WordIdStep(enc, 6, 0);
    CursorStep(enc, 1, 2);
    WordIdStep(enc, 6, 1);
    CursorStep(enc, 2, 3);
    WordIdStep(enc, 6, 2);
    CursorStep(enc, 3, 4);
    WordIdStep(enc, 6, 3);
  }

  /** Where units 4 to 6 of a prompt shaped like the one for "Short text" end, and the counter after each. */
  lemma ShortTextSteps1(enc: seq<seq<U32>>)
    requires |enc| == 7 && |enc[4]| == 1 && |enc[5]| == 1 && |enc[6]| == 1
    requires Cursor(enc[..4]) == 5 && WordId(enc[..4], 6) == 0
    ensures Cursor(enc[..5]) == 6 && WordId(enc[..5], 6) == 1
    ensures Cursor(enc[..6]) == 7 && WordId(enc[..6], 6) == 2
    ensures Cursor(enc[..7]) == 8 && WordId(enc[..7], 6) == 3
    ensures Cursor(enc) == 8
  {
    assert enc[..7] == enc;
    CursorStep(enc, 4, 5);
    WordIdStep(enc, 6, 4);
    CursorStep(enc, 5, 6);
    WordIdStep(enc, 6, 5);
    CursorStep(enc, 6, 7);
    WordIdStep(enc, 6, 6);
  }

  /** Where units 0 to 3 of the prompt for "Short text" end, and the counter after each. */
  lemma ShortTextLayout0()
    ensures Cursor(ShortTextIds[..0]) == 1 && WordId(ShortTextIds[..0], 6) == 0
    ensures Cursor(ShortTextIds[..1]) == 2 && WordId(ShortTextIds[..1], 6) == 0
    ensures Cursor(ShortTextIds[..2]) == 3 && WordId(ShortTextIds[..2], 6) == 0
    ensures Cursor(ShortTextIds[..3]) == 4 && WordId(ShortTextIds[..3], 6) == 0
    ensures Cursor(ShortTextIds[..4]) == 5 && WordId(ShortTextIds[..4], 6) == 0
  {
    ShortTextSteps0(ShortTextIds);
  }

  /** Where units 4 to 6 of the prompt for "Short text" end, and the counter after each. */
  lemma ShortTextLayout1()
    ensures Cursor(ShortTextIds[..5]) == 6 && WordId(ShortTextIds[..5], 6) == 1
    ensures Cursor(ShortTextIds[..6]) == 7 && WordId(ShortTextIds[..6], 6) == 2
    ensures Cursor(ShortTextIds[..7]) == 8 && WordId(ShortTextIds[..7], 6) == 3
    ensures Cursor(ShortTextIds) == 8
  {
    ShortTextLayout0();
    ShortTextSteps1(ShortTextIds);
  }

  /** The sizing pass accepts the prompt for "Short text": 7 sub-words, text from cell 6. */
  lemma ShortTextSizing(tokenizer: Tokenizer)
    requires EncodesAs(tokenizer, ShortTextUnits, ShortTextIds)
    ensures EncodePrompt(Prompt(ShortTextUnits, 5), tokenizer) == Ok(EncodedPrompt(ShortTextIds, 6))
    ensures TotalTokens(EncodedPrompt(ShortTextIds, 6)) == 9
  {
    UnitsEncodeToTheirIds(ShortTextUnits, tokenizer, ShortTextIds);
    ShortTextLayout0();
    ShortTextLayout1();
  }

  /** The `input_ids` row of "Short text" in a batch 22 cells wide. */
  lemma ShortTextIdRow()
    ensures IdRow(ShortTextIds, 22) == [1, 128002, 3000, 128002, 3001, 128003, 3002, 3003, 2, 0, 0, 0, 0, 0, 0, 0, 0, 0, 0, 0, 0, 0]
  {
    ShortTextLayout0();
    ShortTextLayout1();
    IdAt(ShortTextIds, 0, 0, 1);
    IdAt(ShortTextIds, 1, 0, 2);
    IdAt(ShortTextIds, 2, 0, 3);
    IdAt(ShortTextIds, 3, 0, 4);
    IdAt(ShortTextIds, 4, 0, 5);
    IdAt(ShortTextIds, 5, 0, 6);
    IdAt(ShortTextIds, 6, 0, 7);
  }

  /** The units of the prompt for "This is a longer one, to test padding and gloubiboulga.". */
  const LongerOneUnits: seq<string> := ["<<ENT>>", "Person", "<<ENT>>", "Place", "<<SEP>>", "This", "is", "a", "longer", "one", ",", "to", "test", "padding", "and", "gloubiboulga", "."]
  const LongerOneIds: seq<seq<U32>> := [[128002], [3000], [128002], [3001], [128003], [3004], [269], [3005], [3006], [3007], [3008], [264], [3009], [3010], [3011], [3012, 3013, 3014, 3015], [3016]]

  /** Where units 0 to 3 of a prompt shaped like the one for "This is a longer one, to test padding and gloubiboulga." end, and the counter after each. */
  lemma LongerOneSteps0(enc: seq<seq<U32>>)
    requires |enc| == 17 && |enc[0]| == 1 && |enc[1]| == 1 && |enc[2]| == 1 && |enc[3]| == 1
    ensures Cursor(enc[..0]) == 1 && WordId(enc[..0], 6) == 0
    ensures Cursor(enc[..1]) == 2 && WordId(enc[..1], 6) == 0
    ensures Cursor(enc[..2]) == 3 && WordId(enc[..2], 6) == 0
    ensures Cursor(enc[..3]) == 4 && WordId(enc[..3], 6) == 0
    ensures Cursor(enc[..4]) == 5 && WordId(enc[..4], 6) == 0
  {
    assert enc[..0] == [];
    CursorStep(enc, 0, 1);
    WordIdStep(enc, 6, 0);
    CursorStep(enc, 1, 2);
    WordIdStep(enc, 6, 1);
    CursorStep(enc, 2, 3);
    WordIdStep(enc, 6, 2);
    CursorStep(enc, 3, 4);
    WordIdStep(enc, 6, 3);
  }

  /** Where units 4 to 7 of a prompt shaped like the one for "This is a longer one, to test padding and gloubiboulga." end, and the counter after each. */
  lemma LongerOneSteps1(enc: seq<seq<U32>>)
    requires |enc| == 17 && |enc[4]| == 1 && |enc[5]| == 1 && |enc[6]| == 1 && |enc[7]| == 1
    requires Cursor(enc[..4]) == 5 && WordId(enc[..4], 6) == 0
    ensures Cursor(enc[..5]) == 6 && WordId(enc[..5], 6) == 1
    ensures Cursor(enc[..6]) == 7 && WordId(enc[..6], 6) == 2
    ensures Cursor(enc[..7]) == 8 && WordId(enc[..7], 6) == 3
    ensures Cursor(enc[..8]) == 9 && WordId(enc[..8], 6) == 4
  {
    CursorStep(enc, 4, 5);
    WordIdStep(enc, 6, 4);
    CursorStep(enc, 5, 6);
    WordIdStep(enc, 6, 5);
    CursorStep(enc, 6, 7);
    WordIdStep(enc, 6, 6);
    CursorStep(enc, 7, 8);
    WordIdStep(enc, 6, 7);
  }

  /** Where units 8 to 11 of a prompt shaped like the one for "This is a longer one, to test padding and gloubiboulga." end, and the counter after each. */
  lemma LongerOneSteps2(enc: seq<seq<U32>>)
    requires |enc| == 17 && |enc[8]| == 1 && |enc[9]| == 1 && |enc[10]| == 1 && |enc[11]| == 1
    requires Cursor(enc[..8]) == 9 && WordId(enc[..8], 6) == 4
    ensures Cursor(enc[..9]) == 10 && WordId(enc[..9], 6) == 5
    ensures Cursor(enc[..10]) == 11 && WordId(enc[..10], 6) == 6
    ensures Cursor(enc[..11]) == 12 && WordId(enc[..11], 6) == 7
    ensures Cursor(enc[..12]) == 13 && WordId(enc[..12], 6) == 8
  {
    CursorStep(enc, 8, 9);
    WordIdStep(enc, 6, 8);
    CursorStep(enc, 9, 10);
    WordIdStep(enc, 6, 9);
    CursorStep(enc, 10, 11);
    WordIdStep(enc, 6, 10);
    CursorStep(enc, 11, 12);
    WordIdStep(enc, 6, 11);
  }

  /** Where units 12 to 15 of a prompt shaped like the one for "This is a longer one, to test padding and gloubiboulga." end, and the counter after each. */
  lemma LongerOneSteps3(enc: seq<seq<U32>>)
    requires |enc| == 17 && |enc[12]| == 1 && |enc[13]| == 1 && |enc[14]| == 1 && |enc[15]| == 4
    requires Cursor(enc[..12]) == 13 && WordId(enc[..12], 6) == 8
    ensures Cursor(enc[..13]) == 14 && WordId(enc[..13], 6) == 9
    ensures Cursor(enc[..14]) == 15 && WordId(enc[..14], 6) == 10
    ensures Cursor(enc[..15]) == 16 && WordId(enc[..15], 6) == 11
    ensures Cursor(enc[..16]) == 20 && WordId(enc[..16], 6) == 12
  {
    CursorStep(enc, 12, 13);
    WordIdStep(enc, 6, 12);
    CursorStep(enc, 13, 14);
    WordIdStep(enc, 6, 13);
    CursorStep(enc, 14, 15);
    WordIdStep(enc, 6, 14);
    CursorStep(enc, 15, 16);
    WordIdStep(enc, 6, 15);
  }

  /** Where units 16 to 16 of a prompt shaped like the one for "This is a longer one, to test padding and gloubiboulga." end, and the counter after each. */
  lemma LongerOneSteps4(enc: seq<seq<U32>>)
    requires |enc| == 17 && |enc[16]| == 1
    requires Cursor(enc[..16]) == 20 && WordId(enc[..16], 6) == 12
    ensures Cursor(enc[..17]) == 21 && WordId(enc[..17], 6) == 13
    ensures Cursor(enc) == 21
  {
    assert enc[..17] == enc;
    CursorStep(enc, 16, 20);
    WordIdStep(enc, 6, 16);
  }

  /** Where units 0 to 3 of the prompt for "This is a longer one, to test padding and gloubiboulga." end, and the counter after each. */
  lemma LongerOneLayout0()
    ensures Cursor(LongerOneIds[..0]) == 1 && WordId(LongerOneIds[..0], 6) == 0
    ensures Cursor(LongerOneIds[..1]) == 2 && WordId(LongerOneIds[..1], 6) == 0
    ensures Cursor(LongerOneIds[..2]) == 3 && WordId(LongerOneIds[..2], 6) == 0
    ensures Cursor(LongerOneIds[..3]) == 4 && WordId(LongerOneIds[..3], 6) == 0
    ensures Cursor(LongerOneIds[..4]) == 5 && WordId(LongerOneIds[..4], 6) == 0
  {
    LongerOneSteps0(LongerOneIds);
  }

  /** Where units 4 to 7 of the prompt for "This is a longer one, to test padding and gloubiboulga." end, and the counter after each. */
  lemma LongerOneLayout1()
    ensures Cursor(LongerOneIds[..5]) == 6 && WordId(LongerOneIds[..5], 6) == 1
    ensures Cursor(LongerOneIds[..6]) == 7 && WordId(LongerOneIds[..6], 6) == 2
    ensures Cursor(LongerOneIds[..7]) == 8 && WordId(LongerOneIds[..7], 6) == 3
    ensures Cursor(LongerOneIds[..8]) == 9 && WordId(LongerOneIds[..8], 6) == 4
  {
    LongerOneLayout0();
    LongerOneSteps1(LongerOneIds);
  }

  /** Where units 8 to 11 of the prompt for "This is a longer one, to test padding and gloubiboulga." end, and the counter after each. */
  lemma LongerOneLayout2()
    ensures Cursor(LongerOneIds[..9]) == 10 && WordId(LongerOneIds[..9], 6) == 5
    ensures Cursor(LongerOneIds[..10]) == 11 && WordId(LongerOneIds[..10], 6) == 6
    ensures Cursor(LongerOneIds[..11]) == 12 && WordId(LongerOneIds[..11], 6) == 7
    ensures Cursor(LongerOneIds[..12]) == 13 && WordId(LongerOneIds[..12], 6) == 8
  {
    LongerOneLayout1();
    LongerOneSteps2(LongerOneIds);
  }

  /** Where units 12 to 15 of the prompt for "This is a longer one, to test padding and gloubiboulga." end, and the counter after each. */
  lemma LongerOneLayout3()
    ensures Cursor(LongerOneIds[..13]) == 14 && WordId(LongerOneIds[..13], 6) == 9
    ensures Cursor(LongerOneIds[..14]) == 15 && WordId(LongerOneIds[..14], 6) == 10
    ensures Cursor(LongerOneIds[..15]) == 16 && WordId(LongerOneIds[..15], 6) == 11
    ensures Cursor(LongerOneIds[..16]) == 20 && WordId(LongerOneIds[..16], 6) == 12
  {
    LongerOneLayout2();
    LongerOneSteps3(LongerOneIds);
  }

  /** Where units 16 to 16 of the prompt for "This is a longer one, to test padding and gloubiboulga." end, and the counter after each. */
  lemma LongerOneLayout4()
    ensures Cursor(LongerOneIds[..17]) == 21 && WordId(LongerOneIds[..17], 6) == 13
    ensures Cursor(LongerOneIds) == 21
  {
    LongerOneLayout3();
    LongerOneSteps4(LongerOneIds);
  }

  /** The sizing pass accepts the prompt for "This is a longer one, to test padding and gloubiboulga.": 20 sub-words, text from cell 6. */
  lemma LongerOneSizing(tokenizer: Tokenizer)
    requires EncodesAs(tokenizer, LongerOneUnits, LongerOneIds)
    ensures EncodePrompt(Prompt(LongerOneUnits, 5), tokenizer) == Ok(EncodedPrompt(LongerOneIds, 6))
    ensures TotalTokens(EncodedPrompt(LongerOneIds, 6)) == 22
  {
    UnitsEncodeToTheirIds(LongerOneUnits, tokenizer, LongerOneIds);
    LongerOneLayout0();
    LongerOneLayout1();
    LongerOneLayout2();
    LongerOneLayout3();
    LongerOneLayout4();
  }

  /** The `input_ids` row of "This is a longer one, to test padding and gloubiboulga." in a batch 22 cells wide. */
  lemma LongerOneIdRow()
    ensures IdRow(LongerOneIds, 22) == [1, 128002, 3000, 128002, 3001, 128003, 3004, 269, 3005, 3006, 3007, 3008, 264, 3009, 3010, 3011, 3012, 3013, 3014, 3015, 3016, 2]
  {
    LongerOneLayout0();
    LongerOneLayout1();
    LongerOneLayout2();
    LongerOneLayout3();
    LongerOneLayout4();
    IdAt(LongerOneIds, 0, 0, 1);
    IdAt(LongerOneIds, 1, 0, 2);
    IdAt(LongerOneIds, 2, 0, 3);
    IdAt(LongerOneIds, 3, 0, 4);
    IdAt(LongerOneIds, 4, 0, 5);
    IdAt(LongerOneIds, 5, 0, 6);
    IdAt(LongerOneIds, 6, 0, 7);
    IdAt(LongerOneIds, 7, 0, 8);
    IdAt(LongerOneIds, 8, 0, 9);
    IdAt(LongerOneIds, 9, 0, 10);
    IdAt(LongerOneIds, 10, 0, 11);
    IdAt(LongerOneIds, 11, 0, 12);
    IdAt(LongerOneIds, 12, 0, 13);
    IdAt(LongerOneIds, 13, 0, 14);
    IdAt(LongerOneIds, 14, 0, 15);
    IdAt(LongerOneIds, 15, 0, 16);
    IdAt(LongerOneIds, 15, 1, 16);
    IdAt(LongerOneIds, 15, 2, 16);
    IdAt(LongerOneIds, 15, 3, 16);
    IdAt(LongerOneIds, 16, 0, 20);
  }

  /** The `input_ids` matrix of the first test. */
  lemma FirstTestIdsMatrix()
    ensures IdRows([EncodedPrompt(ShortTextIds, 6), EncodedPrompt(LongerOneIds, 6)], 22) ==
        [[1, 128002, 3000, 128002, 3001, 128003, 3002, 3003, 2, 0, 0, 0, 0, 0, 0, 0, 0, 0, 0, 0, 0, 0],
         [1, 128002, 3000, 128002, 3001, 128003, 3004, 269, 3005, 3006, 3007, 3008, 264, 3009, 3010, 3011, 3012, 3013, 3014, 3015, 3016, 2]]
  {
    ShortTextIdRow();
    LongerOneIdRow();
  }

  /** The `attention_masks` matrix of the first test. */
  lemma FirstTestAttnMatrix()
    ensures AttnRows([EncodedPrompt(ShortTextIds, 6), EncodedPrompt(LongerOneIds, 6)], 22) ==
        [[1, 1, 1, 1, 1, 1, 1, 1, 1, 0, 0, 0, 0, 0, 0, 0, 0, 0, 0, 0, 0, 0],
         [1, 1, 1, 1, 1, 1, 1, 1, 1, 1, 1, 1, 1, 1, 1, 1, 1, 1, 1, 1, 1, 1]]
  {
    ShortTextLayout1();
    assert AttnRow(7, 22) == [1, 1, 1, 1, 1, 1, 1, 1, 1, 0, 0, 0, 0, 0, 0, 0, 0, 0, 0, 0, 0, 0];
    LongerOneLayout4();
    assert AttnRow(20, 22) == [1, 1, 1, 1, 1, 1, 1, 1, 1, 1, 1, 1, 1, 1, 1, 1, 1, 1, 1, 1, 1, 1];
  }

  /**
   * The first test (source lines 159-196): the batch is 22 cells wide, and
   * its rows are those below. The short prompt's `input_ids` row holds 13
   * padding zeros, the long one's none; each holds the entity marker twice
   * and the separator once; 9 and 22 cells are attended.
   */
  lemma FirstTestBatch<Tok>(input: PromptInput<Tok>, tokenizer: Tokenizer)
    requires input.prompts == [Prompt(ShortTextUnits, 5), Prompt(LongerOneUnits, 5)]
    requires EncodesAs(tokenizer, ShortTextUnits, ShortTextIds) && EncodesAs(tokenizer, LongerOneUnits, LongerOneIds)
    ensures Encode(input, tokenizer).Ok?
    ensures var out := Encode(input, tokenizer).value;
      out.numTokens == 22 &&
      out.inputIds ==
      [[1, 128002, 3000, 128002, 3001, 128003, 3002, 3003, 2, 0, 0, 0, 0, 0, 0, 0, 0, 0, 0, 0, 0, 0],
       [1, 128002, 3000, 128002, 3001, 128003, 3004, 269, 3005, 3006, 3007, 3008, 264, 3009, 3010, 3011, 3012, 3013, 3014, 3015, 3016, 2]] &&
      out.attentionMasks ==
      [[1, 1, 1, 1, 1, 1, 1, 1, 1, 0, 0, 0, 0, 0, 0, 0, 0, 0, 0, 0, 0, 0],
       [1, 1, 1, 1, 1, 1, 1, 1, 1, 1, 1, 1, 1, 1, 1, 1, 1, 1, 1, 1, 1, 1]]
  {
    var eps := [EncodedPrompt(ShortTextIds, 6), EncodedPrompt(LongerOneIds, 6)];
    ShortTextSizing(tokenizer);
    LongerOneSizing(tokenizer);
    PromptsEncodeToTheirEncodings(input.prompts, tokenizer, eps);
    assert Width(eps) == 22;
    FirstTestIdsMatrix();
    FirstTestAttnMatrix();
    BatchOutput(input, tokenizer, eps, 22,
      [[1, 128002, 3000, 128002, 3001, 128003, 3002, 3003, 2, 0, 0, 0, 0, 0, 0, 0, 0, 0, 0, 0, 0, 0],
       [1, 128002, 3000, 128002, 3001, 128003, 3004, 269, 3005, 3006, 3007, 3008, 264, 3009, 3010, 3011, 3012, 3013, 3014, 3015, 3016, 2]],
      [[1, 1, 1, 1, 1, 1, 1, 1, 1, 0, 0, 0, 0, 0, 0, 0, 0, 0, 0, 0, 0, 0],
       [1, 1, 1, 1, 1, 1, 1, 1, 1, 1, 1, 1, 1, 1, 1, 1, 1, 1, 1, 1, 1, 1]],
      MaskRows(eps, 22),
      TextLengthMatrix(input.textLengths));
  }

  // ---------------------------------------------------------------------
  // Third test: a label of two sub-words
  // ---------------------------------------------------------------------

  /** The units of the prompt for "this is a test". */
  const MultiLabelUnits: seq<string> := ["<<ENT>>", "multi label", "<<SEP>>", "this", "is", "a", "test"]
  const MultiLabelIds: seq<seq<U32>> := [[128002], [3018, 3019], [128003], [3017], [269], [3005], [3009]]

  /** Where units 0 to 3 of a prompt shaped like the one for "this is a test" end, and the counter after each. */
  lemma MultiLabelSteps0(enc: seq<seq<U32>>)
    requires |enc| == 7 && |enc[0]| == 1 && |enc[1]| == 2 && |enc[2]| == 1 && |enc[3]| == 1
    ensures Cursor(enc[..0]) == 1 && WordId(enc[..0], 5) == 0
    ensures Cursor(enc[..1]) == 2 && WordId(enc[..1], 5) == 0
    ensures Cursor(enc[..2]) == 4 && WordId(enc[..2], 5) == 0
    ensures Cursor(enc[..3]) == 5 && WordId(enc[..3], 5) == 1
    ensures Cursor(enc[..4]) == 6 && WordId(enc[..4], 5) == 2
  {
    assert enc[..0] == [];
    CursorStep(enc, 0, 1);
    WordIdStep(enc, 5, 0);
    CursorStep(enc, 1, 2);
    WordIdStep(enc, 5, 1);
    CursorStep(enc, 2, 4);
    WordIdStep(enc, 5, 2);
    CursorStep(enc, 3, 5);
    WordIdStep(enc, 5, 3);
  }

  /** Where units 4 to 6 of a prompt shaped like the one for "this is a test" end, and the counter after each. */
  lemma MultiLabelSteps1(enc: seq<seq<U32>>)
    requires |enc| == 7 && |enc[4]| == 1 && |enc[5]| == 1 && |enc[6]| == 1
    requires Cursor(enc[..4]) == 6 && WordId(enc[..4], 5) == 2
    ensures Cursor(enc[..5]) == 7 && WordId(enc[..5], 5) == 3
    ensures Cursor(enc[..6]) == 8 && WordId(enc[..6], 5) == 4
    ensures Cursor(enc[..7]) == 9 && WordId(enc[..7], 5) == 5
    ensures Cursor(enc) == 9
  {
    assert enc[..7] == enc;
    CursorStep(enc, 4, 6);
    WordIdStep(enc, 5, 4);
    CursorStep(enc, 5, 7);
    WordIdStep(enc, 5, 5);
    CursorStep(enc, 6, 8);
    WordIdStep(enc, 5, 6);
  }

  /** Where units 0 to 3 of the prompt for "this is a test" end, and the counter after each. */
  lemma MultiLabelLayout0()
    ensures Cursor(MultiLabelIds[..0]) == 1 && WordId(MultiLabelIds[..0], 5) == 0
    ensures Cursor(MultiLabelIds[..1]) == 2 && WordId(MultiLabelIds[..1], 5) == 0
    ensures Cursor(MultiLabelIds[..2]) == 4 && WordId(MultiLabelIds[..2], 5) == 0
    ensures Cursor(MultiLabelIds[..3]) == 5 && WordId(MultiLabelIds[..3], 5) == 1
    ensures Cursor(MultiLabelIds[..4]) == 6 && WordId(MultiLabelIds[..4], 5) == 2
  {
    MultiLabelSteps0(MultiLabelIds);
  }

  /** Where units 4 to 6 of the prompt for "this is a test" end, and the counter after each. */
  lemma MultiLabelLayout1()
    ensures Cursor(MultiLabelIds[..5]) == 7 && WordId(MultiLabelIds[..5], 5) == 3
    ensures Cursor(MultiLabelIds[..6]) == 8 && WordId(MultiLabelIds[..6], 5) == 4
    ensures Cursor(MultiLabelIds[..7]) == 9 && WordId(MultiLabelIds[..7], 5) == 5
    ensures Cursor(MultiLabelIds) == 9
  {
    MultiLabelLayout0();
    MultiLabelSteps1(MultiLabelIds);
  }

  /** The sizing pass accepts the prompt for "this is a test": 8 sub-words, text from cell 5. */
  lemma MultiLabelSizing(tokenizer: Tokenizer)
    requires EncodesAs(tokenizer, MultiLabelUnits, MultiLabelIds)
    ensures EncodePrompt(Prompt(MultiLabelUnits, 3), tokenizer) == Ok(EncodedPrompt(MultiLabelIds, 5))
    ensures TotalTokens(EncodedPrompt(MultiLabelIds, 5)) == 10
  {
    UnitsEncodeToTheirIds(MultiLabelUnits, tokenizer, MultiLabelIds);
    MultiLabelLayout0();
    MultiLabelLayout1();
  }

  /** The `word_masks` row of "this is a test" in a batch 10 cells wide. */
  lemma MultiLabelMaskRow()
    ensures MaskRow(EncodedPrompt(MultiLabelIds, 5), 10) == [0, 0, 0, 0, 0, 1, 2, 3, 4, 0]
  {
    var ep := EncodedPrompt(MultiLabelIds, 5);
    MultiLabelLayout0();
    MultiLabelLayout1();
    MaskCellAt(ep, 0, 0, 1, 0);
    MaskCellAt(ep, 1, 0, 2, 0);
    MaskCellAt(ep, 1, 1, 2, 0);
    MaskCellAt(ep, 2, 0, 4, 0);
    MaskCellAt(ep, 3, 0, 5, 1);
    MaskCellAt(ep, 4, 0, 6, 2);
    MaskCellAt(ep, 5, 0, 7, 3);
    MaskCellAt(ep, 6, 0, 8, 4);
  }

  /** The `word_masks` matrix of the third test. */
  lemma ThirdTestMaskMatrix()
    ensures MaskRows([EncodedPrompt(MultiLabelIds, 5)], 10) ==
        [[0, 0, 0, 0, 0, 1, 2, 3, 4, 0]]
  {
    MultiLabelMaskRow();
  }

  /**
   * The third test (source lines 237-261): with the single label "multi label"
   * of two sub-words, "this is a test" gives a row of 10 cells and numbers
   * its four words 1 to 4 in the word mask.
   */
  lemma MultiwordLabelBatch<Tok>(input: PromptInput<Tok>, tokenizer: Tokenizer)
    requires input.prompts == [Prompt(MultiLabelUnits, 3)]
    requires EncodesAs(tokenizer, MultiLabelUnits, MultiLabelIds)
    ensures Encode(input, tokenizer).Ok?
    ensures var out := Encode(input, tokenizer).value;
      out.numTokens == 10 && |out.inputIds| == 1 && |out.inputIds[0]| == 10 && out.wordMasks == [[0, 0, 0, 0, 0, 1, 2, 3, 4, 0]]
  {
    var eps := [EncodedPrompt(MultiLabelIds, 5)];
    MultiLabelSizing(tokenizer);
    PromptsEncodeToTheirEncodings(input.prompts, tokenizer, eps);
    assert Width(eps) == 10;
    ThirdTestMaskMatrix();
    BatchOutput(input, tokenizer, eps, 10,
      IdRows(eps, 10),
      AttnRows(eps, 10),
      [[0, 0, 0, 0, 0, 1, 2, 3, 4, 0]],
      TextLengthMatrix(input.textLengths));
  }

  // ---------------------------------------------------------------------
  // A prompt without text words
  // ---------------------------------------------------------------------

  /**
   * When `entitiesLen` is the number of units, so that no word of text
   * follows the separator, every unit counts towards `text_offset`. The
   * counter then reaches 1 just before the separator, whose cell gets 1
   * (source lines 52 and 89-98): here one label `[8]` between the entity
   * marker `[7]` and the separator `[9]`.
   */
  lemma NoTextWordMask()
    ensures TextOffset([[7], [8], [9]], 3) == 3
    ensures MaskRow(EncodedPrompt([[7], [8], [9]], 3), 5) == [0, 0, 0, 1, 0]
  {
    var enc: seq<seq<U32>> := [[7], [8], [9]];
    var ep := EncodedPrompt(enc, 3);
    assert enc[..0] == [] && enc[..3] == enc;
    CursorStep(enc, 0, 1);
    CursorStep(enc, 1, 2);
    CursorStep(enc, 2, 3);
    WordIdStep(enc, 3, 0);
    WordIdStep(enc, 3, 1);
    MaskCellAt(ep, 0, 0, 1, 0);
    MaskCellAt(ep, 1, 0, 2, 0);
    MaskCellAt(ep, 2, 0, 3, 1);
  }

}
