/** Printing a command line so that a shell reads it back. `FormatRemediation` is the program's printer;
    `Split` is written independently after sections 2.2 and 2.3 of the POSIX.1-2017 Shell Command Language. */
module DaemonStatus {
  import opened Wrappers

  // ----- the printer ----------------------------------------------------------------------------------

  predicate PlainChar(c: char) {
    'a' <= c <= 'z' || 'A' <= c <= 'Z' || '0' <= c <= '9' || c in "_@%+=:,./-"
  }

  predicate Plain(word: string) {
    word != "" && forall i :: 0 <= i < |word| ==> PlainChar(word[i])
  }

  /** Inside quotes a quote is written by closing them, escaping it, and opening them again. */
  function EscapeQuotes(word: string): string {
    if word == "" then ""
    else (if word[0] == '\'' then "'\\''" else [word[0]]) + EscapeQuotes(word[1..])
  }

  function FormatWord(word: string): string {
    if Plain(word) then word else "'" + EscapeQuotes(word) + "'"
  }

  function FormatRemediation(argv: seq<string>): string {
    if argv == [] then ""
    else if |argv| == 1 then FormatWord(argv[0])
    else FormatWord(argv[0]) + " " + FormatRemediation(argv[1..])
  }

  lemma {:induction false} EscapingNeverShortens(word: string)
    ensures |word| <= |EscapeQuotes(word)|
  {
    if word != "" {
      EscapingNeverShortens(word[1..]);
    }
  }

  /** A word is printed as it is exactly if it is not empty and all its characters are plain. */
  lemma UnquotedIffPlain(word: string)
    ensures FormatWord(word) == word <==>
      word != "" && forall i :: 0 <= i < |word| ==>
        'a' <= word[i] <= 'z' || 'A' <= word[i] <= 'Z' || '0' <= word[i] <= '9' || word[i] in "_@%+=:,./-"
  {
    EscapingNeverShortens(word);
  }

  // ----- the shell --------------------------------------------------------------------------------------

  /** Between words; inside one; inside single quotes; after a backslash. */
  datatype Mode = Blank | Word(text: string) | Quoted(text: string) | Escaped(text: string)

  /** Unquoted, these start an operator, an expansion, a comment, a pattern or another kind of quoting; a
      plain list of words has none of them. */
  predicate Special(c: char) {
    c in "|&;<>()$`\"*?[#~\n"
  }

  predicate Separator(c: char) {
    c == ' ' || c == '\t'
  }

  /** What the shell knows after some characters: how it reads the next one, and the words so far. */
  datatype Reading = Reading(mode: Mode, words: seq<string>)

  /** One more character; nothing if the text cannot be a list of words. */
  function Read(r: Reading, c: char): Option<Reading> {
    match r.mode
    case Quoted(word) => Some(r.(mode := if c == '\'' then Word(word) else Quoted(word + [c])))
    case Escaped(word) => if c == '\n' then None else Some(r.(mode := Word(word + [c])))
    case Blank =>
      if Separator(c) then Some(r)
      else if c == '\'' then Some(r.(mode := Quoted("")))
      else if c == '\\' then Some(r.(mode := Escaped("")))
      else if Special(c) then None
      else Some(r.(mode := Word([c])))
    case Word(word) =>
      if Separator(c) then Some(Reading(Blank, r.words + [word]))
      else if c == '\'' then Some(r.(mode := Quoted(word)))
      else if c == '\\' then Some(r.(mode := Escaped(word)))
      else if Special(c) then None
      else Some(r.(mode := Word(word + [c])))
  }

  /** The words of a simple command, or nothing if the text is not one. */
  function Split(text: string, r: Reading): Option<seq<string>>
    decreases |text|
  {
    if text != "" then
      var next := Read(r, text[0]);
      if next.None? then None else Split(text[1..], next.value)
    else if r.mode.Blank? then Some(r.words)
    else if r.mode.Word? then Some(r.words + [r.mode.text])
    else None
  }

  lemma OneMore(c: char, rest: string, r: Reading)
    requires Read(r, c).Some?
    ensures Split([c] + rest, r) == Split(rest, Read(r, c).value)
  {
  }

  lemma {:induction false} PlainIsRead(word: string, text: string, rest: string, words: seq<string>)
    requires forall i :: 0 <= i < |word| ==> PlainChar(word[i])
    ensures Split(word + rest, Reading(Word(text), words)) == Split(rest, Reading(Word(text + word), words))
    decreases |word|
  {
    hide Split;
    if word == "" {
      assert word + rest == rest && text + word == text;
    } else {
      assert word + rest == [word[0]] + (word[1..] + rest);
      OneMore(word[0], word[1..] + rest, Reading(Word(text), words));
      PlainIsRead(word[1..], text + [word[0]], rest, words);
      assert text + [word[0]] + word[1..] == text + word;
    }
  }

  lemma QuoteInQuotes(text: string, tail: string, words: seq<string>)
    ensures Split("'\\''" + tail, Reading(Quoted(text), words)) == Split(tail, Reading(Quoted(text + ['\'']), words))
  {
    hide Split;
    assert "'\\''" + tail == ['\''] + (['\\'] + (['\''] + (['\''] + tail)));
    OneMore('\'', ['\\'] + (['\''] + (['\''] + tail)), Reading(Quoted(text), words));
    OneMore('\\', ['\''] + (['\''] + tail), Reading(Word(text), words));
    OneMore('\'', ['\''] + tail, Reading(Escaped(text), words));
    OneMore('\'', tail, Reading(Word(text + ['\'']), words));
  }

  lemma {:induction false} QuotedIsRead(word: string, text: string, rest: string, words: seq<string>)
    ensures Split(EscapeQuotes(word) + "'" + rest, Reading(Quoted(text), words))
      == Split(rest, Reading(Word(text + word), words))
    decreases |word|
  {
    hide Split;
    if word == "" {
      assert EscapeQuotes(word) + "'" + rest == ['\''] + rest && text + word == text;
      OneMore('\'', rest, Reading(Quoted(text), words));
    } else {
      var tail := EscapeQuotes(word[1..]) + "'" + rest;
      QuotedIsRead(word[1..], text + [word[0]], rest, words);
      assert text + [word[0]] + word[1..] == text + word;
      if word[0] == '\'' {
        assert EscapeQuotes(word) + "'" + rest == "'\\''" + tail;
        QuoteInQuotes(text, tail, words);
      } else {
        assert EscapeQuotes(word) + "'" + rest == [word[0]] + tail;
        OneMore(word[0], tail, Reading(Quoted(text), words));
      }
    }
  }

  lemma WordIsRead(word: string, rest: string, words: seq<string>)
    ensures Split(FormatWord(word) + rest, Reading(Blank, words)) == Split(rest, Reading(Word(word), words))
  {
    hide Split, EscapeQuotes;
    if Plain(word) {
      assert word + rest == [word[0]] + (word[1..] + rest);
      OneMore(word[0], word[1..] + rest, Reading(Blank, words));
      PlainIsRead(word[1..], [word[0]], rest, words);
      assert [word[0]] + word[1..] == word;
    } else {
      var tail := EscapeQuotes(word) + "'" + rest;
      assert FormatWord(word) + rest == ['\''] + tail;
      OneMore('\'', tail, Reading(Blank, words));
      QuotedIsRead(word, "", rest, words);
      assert "" + word == word;
    }
  }

  lemma FormatSplits(argv: seq<string>)
    requires 2 <= |argv|
    ensures FormatRemediation(argv) == FormatWord(argv[0]) + ([' '] + FormatRemediation(argv[1..]))
  {
  }

  lemma LastWord(word: string, words: seq<string>)
    ensures Split(FormatWord(word), Reading(Blank, words)) == Some(words + [word])
  {
    WordIsRead(word, "", words);
    assert FormatWord(word) + "" == FormatWord(word);
  }

  lemma FirstWord(argv: seq<string>, words: seq<string>)
    requires 2 <= |argv|
    ensures Split(FormatRemediation(argv), Reading(Blank, words))
      == Split(FormatRemediation(argv[1..]), Reading(Blank, words + [argv[0]]))
  {
    FormatSplits(argv);
    hide *;
    var rest := FormatRemediation(argv[1..]);
    WordIsRead(argv[0], [' '] + rest, words);
    SpaceEndsWord(rest, argv[0], words);
  }

  /** Whatever the words contain, the shell reads back exactly the list that was printed. */
  lemma {:induction false} RoundTrip(argv: seq<string>, words: seq<string>)
    ensures Split(FormatRemediation(argv), Reading(Blank, words)) == Some(words + argv)
    decreases |argv|
  {
    hide Split, FormatWord;
    if argv == [] {
      NoWords(words);
      assert words + argv == words;
    } else if |argv| == 1 {
      LastWord(argv[0], words);
      assert argv == [argv[0]];
    } else {
      FirstWord(argv, words);
      RoundTrip(argv[1..], words + [argv[0]]);
      assert words + [argv[0]] + argv[1..] == words + argv;
    }
  }

  lemma NoWords(words: seq<string>)
    ensures Split("", Reading(Blank, words)) == Some(words)
  {
  }

  lemma SpaceEndsWord(rest: string, word: string, words: seq<string>)
    ensures Split([' '] + rest, Reading(Word(word), words)) == Split(rest, Reading(Blank, words + [word]))
  {
  }

  /** So two command lines that differ never print the same. */
  lemma FormatIsInjective(a: seq<string>, b: seq<string>)
    requires FormatRemediation(a) == FormatRemediation(b)
    ensures a == b
  {
    RoundTrip(a, []);
    RoundTrip(b, []);
    assert [] + a == a && [] + b == b;
  }
}
