/** The typewriter headline (components/UI/Typewriter.tsx): a step machine
    over (word index, shown text, deleting flag) that types each word out one
    character at a time, pauses, deletes it again and moves on to the next
    word. Timers are left out; one `Step` is one firing of the effect. */
module Typewriter {

  datatype State = State(wordIndex: nat, text: string, isDeleting: bool)

  /** The first render: the first word, nothing typed yet. */
  const Start := State(0, "", false)

  /** `word.substring(0, end)`: JavaScript clamps `end` into the word. */
  function Substring(word: string, end: int): (r: string)
    ensures |r| == if end < 0 then 0 else if end > |word| then |word| else end
    ensures r == word[..|r|]
  {
    if end < 0 then [] else if end > |word| then word else word[..end]
  }

  /** The index is a valid word index and the shown text is a prefix of that
      word. */
  predicate Valid(words: seq<string>, st: State) {
    st.wordIndex < |words| && |st.text| <= |words[st.wordIndex]|
    && st.text == words[st.wordIndex][..|st.text|]
  }

  lemma StartIsValid(words: seq<string>)
    requires |words| > 0
    ensures Valid(words, Start)
  {
  }

  /** One firing of the effect. */
  function Step(words: seq<string>, st: State): (r: State)
    requires Valid(words, st)
    ensures Valid(words, r)
    ensures !st.isDeleting && st.text != words[st.wordIndex] ==>
      r.wordIndex == st.wordIndex && !r.isDeleting
      && |r.text| == |st.text| + 1 && r.text[..|st.text|] == st.text
    ensures st.isDeleting && st.text != "" ==>
      r.wordIndex == st.wordIndex && r.isDeleting
      && |r.text| + 1 == |st.text| && r.text == st.text[..|r.text|]
    ensures !st.isDeleting && st.text == words[st.wordIndex] ==>
      r == st.(isDeleting := true)
    ensures st.isDeleting && st.text == "" ==>
      r == State((st.wordIndex + 1) % |words|, "", false)
  {
    var word := words[st.wordIndex];
    if !st.isDeleting && st.text == word then st.(isDeleting := true)
    else if st.isDeleting && st.text == "" then State((st.wordIndex + 1) % |words|, "", false)
    else if st.isDeleting then st.(text := Substring(word, |st.text| - 1))
    else st.(text := Substring(word, |st.text| + 1))
  }

  /** `n` firings in a row. */
  function Iterate(words: seq<string>, st: State, n: nat): (r: State)
    requires Valid(words, st)
    ensures Valid(words, r)
    decreases n
  {
    if n == 0 then st else Iterate(words, Step(words, st), n - 1)
  }

  lemma {:induction false} IterateAdd(words: seq<string>, st: State, a: nat, b: nat)
    requires Valid(words, st)
    ensures Iterate(words, st, a + b) == Iterate(words, Iterate(words, st, a), b)
    decreases a
  {
    if a > 0 {
      IterateAdd(words, Step(words, st), a - 1, b);
    }
  }

  /** Typing runs to the end of the word. */
  lemma {:induction false} TypesOut(words: seq<string>, i: nat, j: nat)
    requires i < |words| && j <= |words[i]|
    ensures Iterate(words, State(i, words[i][..j], false), |words[i]| - j) == State(i, words[i], false)
    decreases |words[i]| - j
  {
    var w := words[i];
    if j == |w| {
      assert w[..j] == w;
    } else {
      var st := State(i, w[..j], false);
      assert st.text != w;
      var next := Step(words, st);
      assert next == State(i, w[..j + 1], false);
      TypesOut(words, i, j + 1);
    }
  }

  /** Deleting runs down to the empty text. */
  lemma {:induction false} ErasesOut(words: seq<string>, i: nat, j: nat)
    requires i < |words| && j <= |words[i]|
    ensures Iterate(words, State(i, words[i][..j], true), j) == State(i, "", true)
  {
    var w := words[i];
    if j > 0 {
      var st := State(i, w[..j], true);
      var next := Step(words, st);
      assert next == State(i, w[..j - 1], true);
      ErasesOut(words, i, j - 1);
    }
  }

  /** Each word is typed out completely, then deleted completely, before the
      next word starts: 2|w| + 2 firings take the empty text of word `i` to
      the empty text of the next word. */
  lemma FullCycle(words: seq<string>, i: nat)
    requires i < |words|
    ensures var w := words[i];
      Iterate(words, State(i, "", false), 2 * |w| + 2) == State((i + 1) % |words|, "", false)
  {
    var w := words[i];
    var st := State(i, "", false);
    assert w[..0] == "";
    TypesOut(words, i, 0);
    IterateAdd(words, st, |w|, 1);
    var typed := State(i, w, false);
    assert Iterate(words, typed, 1) == State(i, w, true);
    assert w[..|w|] == w;
    ErasesOut(words, i, |w|);
    IterateAdd(words, st, |w| + 1, |w|);
    IterateAdd(words, st, 2 * |w| + 1, 1);
  }
}
