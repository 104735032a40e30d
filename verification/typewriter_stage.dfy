/**
 * The typewriter editing surface (components/TypewriterStage.tsx): every
 * change of the hidden text area is classified by comparing the new value
 * with the current text, and the classification decides which sound plays
 * and whether the stage shakes.
 */
module TypewriterStage {
  import opened Wrappers

  datatype Sound = EnterSound | KeySound | BackspaceSound

  /**
   * What one change event causes: the sound callback invoked (if any), how
   * many times the shake is triggered, and the text handed to `setText`.
   */
  datatype Reaction = Reaction(sound: Option<Sound>, shakes: nat, text: string)

  /** `handleChange`: classify the edit from `text` to `newVal`. */
  function HandleChange(text: string, newVal: string): (r: Reaction)
    ensures r.text == newVal
    ensures r.sound.None? <==> |newVal| == |text|
    ensures r.shakes == (if |newVal| == |text| then 0 else 1)
    ensures r.sound == Some(BackspaceSound) <==> |newVal| < |text|
    ensures r.sound == Some(EnterSound) <==> |newVal| > |text| && newVal[|newVal| - 1] == '\n'
    ensures r.sound == Some(KeySound) <==> |newVal| > |text| && newVal[|newVal| - 1] != '\n'
  {
    var diff := |newVal| - |text|;
    if diff > 0 then
      var last := newVal[|newVal| - 1];
      Reaction(Some(if last == '\n' then EnterSound else KeySound), 1, newVal)
    else if diff < 0 then
      Reaction(Some(BackspaceSound), 1, newVal)
    else
      Reaction(None, 0, newVal)
  }

  /**
   * The classification sees only the two lengths and the last character of
   * the new value: two edits that agree on those react the same way,
   * wherever in the text they happened.
   */
  lemma OnlyLengthsAndLastCharacterMatter(text: string, newVal: string, text': string, newVal': string)
    requires |text| == |text'| && |newVal| == |newVal'|
    requires |newVal| > 0 ==> newVal[|newVal| - 1] == newVal'[|newVal'| - 1]
    ensures HandleChange(text, newVal).sound == HandleChange(text', newVal').sound
    ensures HandleChange(text, newVal).shakes == HandleChange(text', newVal').shakes
  {
  }

  /** `text` with `c` inserted before position `p`. */
  function Insert(text: string, p: nat, c: char): (r: string)
    requires p <= |text|
    ensures |r| == |text| + 1 && r[p] == c
    ensures r[..p] == text[..p] && r[p + 1..] == text[p..]
  {
    text[..p] + [c] + text[p..]
  }

  /** `text` with the character at position `p` removed. */
  function Delete(text: string, p: nat): (r: string)
    requires p < |text|
    ensures |r| == |text| - 1
    ensures r[..p] == text[..p] && r[p..] == text[p + 1..]
  {
    text[..p] + text[p + 1..]
  }

  /** Typing a character at the end plays the bell sound exactly for a newline. */
  lemma TypingAtEnd(text: string, c: char)
    ensures HandleChange(text, Insert(text, |text|, c)) ==
      Reaction(Some(if c == '\n' then EnterSound else KeySound), 1, text + [c])
  {
    assert Insert(text, |text|, c) == text + [c];
  }

  /**
   * Typing a character anywhere but at the end is classified by the last
   * character already present: a newline typed mid-text plays the key
   * sound, and any character typed before a trailing newline plays the
   * enter sound.
   */
  lemma TypingInside(text: string, p: nat, c: char)
    requires p < |text|
    ensures HandleChange(text, Insert(text, p, c)).sound ==
      Some(if text[|text| - 1] == '\n' then EnterSound else KeySound)
  {
    var r := Insert(text, p, c);
    assert r[|r| - 1] == r[p + 1..][|text| - 1 - p] == text[p..][|text| - 1 - p];
  }

  /** Deleting one character anywhere plays the backspace sound and shakes once. */
  lemma DeletingAnywhere(text: string, p: nat)
    requires p < |text|
    ensures HandleChange(text, Delete(text, p)) == Reaction(Some(BackspaceSound), 1, Delete(text, p))
  {
  }

  /**
   * A paste, however long, or any growth of the text, triggers one sound and
   * one shake; a same-length replacement triggers nothing.
   */
  lemma OneReactionPerChange(text: string, newVal: string)
    ensures HandleChange(text, newVal).shakes <= 1
    ensures (HandleChange(text, newVal).shakes == 1) == HandleChange(text, newVal).sound.Some?
  {
  }

}
