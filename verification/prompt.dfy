/** The option lettering that `get_mcq_prompt` derives from the requested
    number of options. The prose of the prompt itself is not modelled. */
module Prompt {

  /** The letters offered to the service: A-D, plus E in five-option mode. */
  function OptionLetters(numOptions: int): (letters: seq<string>)
    ensures |letters| == (if numOptions == 5 then 5 else 4)
    ensures forall i :: 0 <= i < |letters| ==> letters[i] == [('A' as int + i) as char]
  {
    var base := ["A", "B", "C", "D"];
    if numOptions == 5 then base + ["E"] else base
  }

  /** ASCII lower-casing, which is all `str.lower` does to the letters A-E. */
  function LowerChar(c: char): (l: char)
    ensures 'A' <= c <= 'Z' ==> 'a' <= l <= 'z' && l as int - 'a' as int == c as int - 'A' as int
    ensures !('A' <= c <= 'Z') ==> l == c
  {
    if 'A' <= c <= 'Z' then (c as int - 'A' as int + 'a' as int) as char else c
  }

  function Lower(s: string): (l: string)
    ensures |l| == |s|
    ensures forall i :: 0 <= i < |s| ==> l[i] == LowerChar(s[i])
  {
    if |s| == 0 then [] else [LowerChar(s[0])] + Lower(s[1..])
  }

  const OptionPrefix: string := "option_"

  /** The record key the prompt names for an option letter. */
  function OptionKey(letter: string): (key: string)
    ensures |key| == |OptionPrefix| + |letter|
    ensures key[..|OptionPrefix|] == OptionPrefix
  {
    OptionPrefix + Lower(letter)
  }

  /** The option keys listed in the prompt, in letter order. */
  function OptionKeys(numOptions: int): (keys: seq<string>)
    ensures |keys| == (if numOptions == 5 then 5 else 4)
    ensures forall i :: 0 <= i < |keys| ==> keys[i] == OptionPrefix + [('a' as int + i) as char]
  {
    var letters := OptionLetters(numOptions);
    var keys := seq(|letters|, i requires 0 <= i < |letters| => OptionKey(letters[i]));
    assert forall i :: 0 <= i < |keys| ==> keys[i] == OptionPrefix + [('a' as int + i) as char] by {
      forall i | 0 <= i < |keys|
        ensures keys[i] == OptionPrefix + [('a' as int + i) as char]
      {
        assert letters[i] == [('A' as int + i) as char];
        assert Lower(letters[i]) == [LowerChar(letters[i][0])];
      }
    }
    keys
  }

  /** The concrete key lists of both modes. */
  lemma OptionKeysSpelledOut(numOptions: int)
    ensures numOptions == 5 ==>
      OptionKeys(numOptions) == ["option_a", "option_b", "option_c", "option_d", "option_e"]
    ensures numOptions != 5 ==>
      OptionKeys(numOptions) == ["option_a", "option_b", "option_c", "option_d"]
  {
    var keys := OptionKeys(numOptions);
    SpelledKeys();
    assert keys[0] == OptionPrefix + ['a'] && keys[1] == OptionPrefix + ['b'];
    assert keys[2] == OptionPrefix + ['c'] && keys[3] == OptionPrefix + ['d'];
    if numOptions == 5 {
      assert keys[4] == OptionPrefix + ['e'];
    }
  }

  lemma SpelledKeys()
    ensures OptionPrefix + ['a'] == "option_a" && OptionPrefix + ['b'] == "option_b"
    ensures OptionPrefix + ['c'] == "option_c" && OptionPrefix + ['d'] == "option_d"
    ensures OptionPrefix + ['e'] == "option_e"
  {
  }
}
