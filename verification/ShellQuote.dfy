/** The remote command string, read back the way a POSIX shell reads it (Shell Command
    Language, sections 2.2.1 and 2.2.2). */
module ShellQuote {
  import opened Text

  // ---------- the printer ----------

  /** `strings.ReplaceAll(s, "'", `'\''`)`. */
  function EscapeQuotes(s: string): string {
    if s == [] then []
    else (if s[0] == '\'' then "'\\''" else [s[0]]) + EscapeQuotes(s[1..])
  }

  function Quote(s: string): string { "'" + EscapeQuotes(s) + "'" }

  function JoinWords(words: seq<string>): string {
    if words == [] then "" else if |words| == 1 then words[0] else words[0] + " " + JoinWords(words[1..])
  }

  /** `remoteRsyncArgs`: the fixed server options, then the source argument. */
  function RemoteRsyncArgs(options: seq<string>, sourceDir: string, glob: string): seq<string> {
    options + [Quote(sourceDir) + "/" + glob]
  }

  function RemoteCommand(options: seq<string>, sourceDir: string, glob: string): string {
    "rsync " + JoinWords(RemoteRsyncArgs(options, sourceDir, glob))
  }

  // ---------- the shell ----------

  /** One character of a word; `quoted` takes away any special meaning. */
  datatype WordChar = WordChar(c: char, quoted: bool)
  type Word = seq<WordChar>

  predicate Blank(c: char) { c == ' ' || c == '\t' }

  /** Characters that, unquoted, start something other than an ordinary word character. */
  predicate Special(c: char) {
    c == '|' || c == '&' || c == ';' || c == '<' || c == '>' || c == '(' || c == ')' ||
    c == '$' || c == '`' || c == '"' || c == '\n'
  }

  /** Unquoted characters that are special at the start of a word. */
  predicate SpecialAtStart(c: char) { c == '#' || c == '~' }

  function Append(w: Option<Word>, c: WordChar): Option<Word> {
    Some((if w.Some? then w.value else []) + [c])
  }

  function Finish(w: Option<Word>, rest: Option<seq<Word>>): Option<seq<Word>> {
    match rest
    case None => None
    case Some(words) => Some((if w.Some? then [w.value] else []) + words)
  }

  /** The words of a command line, or None when it holds an operator, an expansion, a
      double quote, a comment or an open quotation. `w` is the word being read. */
  function Lex(s: string, w: Option<Word>): Option<seq<Word>>
    decreases |s|
  {
    if s == [] then Finish(w, Some([]))
    else if s[0] == '\'' then LexQuoted(s[1..], if w.Some? then w.value else [])
    else if s[0] == '\\' then
      if |s| == 1 then None
      else if s[1] == '\n' then Lex(s[2..], w)
      else Lex(s[2..], Append(w, WordChar(s[1], true)))
    else if Blank(s[0]) then Finish(w, Lex(s[1..], None))
    else if Special(s[0]) || (w.None? && SpecialAtStart(s[0])) then None
    else Lex(s[1..], Append(w, WordChar(s[0], false)))
  }

  /** Inside single quotes everything up to the next single quote is literal. */
  function LexQuoted(s: string, w: Word): Option<seq<Word>>
    decreases |s|
  {
    if s == [] then None
    else if s[0] == '\'' then Lex(s[1..], Some(w))
    else LexQuoted(s[1..], w + [WordChar(s[0], true)])
  }

  function Literal(s: string): (w: Word)
    ensures |w| == |s|
  {
    seq(|s|, i requires 0 <= i < |s| => WordChar(s[i], true))
  }

  function Plain(s: string): (w: Word)
    ensures |w| == |s|
  {
    seq(|s|, i requires 0 <= i < |s| => WordChar(s[i], false))
  }

  /** An unquoted text that is one word wherever it stands. */
  predicate OrdinaryChar(c: char) { c != '\'' && c != '\\' && !Blank(c) && !Special(c) }
  predicate Ordinary(s: string) {
    s != [] && !SpecialAtStart(s[0]) && forall i | 0 <= i < |s| :: OrdinaryChar(s[i])
  }

  // ---------- reading back ----------

  lemma ConsLiteral(c: char, s: string)
    ensures Literal([c] + s) == [WordChar(c, true)] + Literal(s)
    ensures Plain([c] + s) == [WordChar(c, false)] + Plain(s)
  {
  }

  /** An escaped text inside single quotes reads as the text itself. */
  lemma {:induction false} QuotedReads(s: string, w: Word, rest: string)
    ensures LexQuoted(EscapeQuotes(s) + "'" + rest, w) == Lex(rest, Some(w + Literal(s)))
    decreases |s|
  {
    var input := EscapeQuotes(s) + "'" + rest;
    if s == [] {
      assert input[1..] == rest;
      assert w + Literal(s) == w;
    } else {
      var tail := EscapeQuotes(s[1..]) + "'" + rest;
      var w' := w + [WordChar(s[0], true)];
      QuotedReads(s[1..], w', rest);
      ConsLiteral(s[0], s[1..]);
      assert s == [s[0]] + s[1..];
      assert w' + Literal(s[1..]) == w + Literal(s);
      if s[0] == '\'' {
        assert input == "'\\''" + tail;
        QuoteEscape(tail, w);
      } else {
        assert input == [s[0]] + tail;
        assert input[1..] == tail;
      }
    }
  }

  lemma OpenQuote(tail: string, w: Option<Word>)
    ensures Lex("'" + tail, w) == LexQuoted(tail, if w.Some? then w.value else [])
  {
    assert ("'" + tail)[1..] == tail;
  }

  lemma CloseQuote(tail: string, w: Word)
    ensures LexQuoted("'" + tail, w) == Lex(tail, Some(w))
  {
    assert ("'" + tail)[1..] == tail;
  }

  lemma EscapedChar(c: char, tail: string, w: Word)
    requires c != '\n'
    ensures Lex(['\\', c] + tail, Some(w)) == Lex(tail, Some(w + [WordChar(c, true)]))
  {
    assert (['\\', c] + tail)[2..] == tail;
  }

  lemma BlankEnds(tail: string, w: Option<Word>)
    ensures Lex(" " + tail, w) == Finish(w, Lex(tail, None))
  {
    assert (" " + tail)[1..] == tail;
  }

  /** Leaving the quotes, an escaped quote, and entering them again. */
  lemma QuoteEscape(tail: string, w: Word)
    ensures LexQuoted("'\\''" + tail, w) == LexQuoted(tail, w + [WordChar('\'', true)])
  {
    hide Lex, LexQuoted;
    assert "'\\''" + tail == "'" + (['\\', '\''] + ("'" + tail));
    CloseQuote(['\\', '\''] + ("'" + tail), w);
    EscapedChar('\'', "'" + tail, w);
    OpenQuote(tail, Some(w + [WordChar('\'', true)]));
  }

  /** Unquoted ordinary characters extend the word being read. */
  lemma {:induction false} PlainReads(s: string, w: Option<Word>, rest: string)
    requires (forall i | 0 <= i < |s| :: OrdinaryChar(s[i])) && (w.None? ==> Ordinary(s))
    ensures Lex(s + rest, w) == Lex(rest, Some((if w.Some? then w.value else []) + Plain(s)))
    decreases |s|
  {
    var have := if w.Some? then w.value else [];
    if s == [] {
      assert s + rest == rest && have + Plain(s) == have;
    } else {
      var w' := have + [WordChar(s[0], false)];
      assert (s + rest)[0] == s[0] && (s + rest)[1..] == s[1..] + rest;
      PlainReads(s[1..], Some(w'), rest);
      ConsLiteral(s[0], s[1..]);
      assert s == [s[0]] + s[1..];
      assert w' + Plain(s[1..]) == have + Plain(s);
    }
  }

  /** The words before the last one. */
  lemma {:induction false} OptionsRead(options: seq<string>, last: string)
    requires forall i | 0 <= i < |options| :: Ordinary(options[i])
    ensures Lex(JoinWords(options + [last]), None) == Finish(None, PrependAll(options, Lex(last, None)))
    decreases |options|
  {
    if options == [] {
      assert options + [last] == [last];
      FinishNone(Lex(last, None));
    } else {
      hide Lex, Literal;
      var words := options + [last];
      assert words[0] == options[0] && words[1..] == options[1..] + [last];
      var rest := JoinWords(options[1..] + [last]);
      assert JoinWords(words) == options[0] + (" " + rest);
      PlainReads(options[0], None, " " + rest);
      assert [] + Plain(options[0]) == Plain(options[0]);
      BlankEnds(rest, Some(Plain(options[0])));
      OptionsRead(options[1..], last);
      FinishNone(PrependAll(options[1..], Lex(last, None)));
      FinishNone(PrependAll(options, Lex(last, None)));
    }
  }

  lemma FinishNone(words: Option<seq<Word>>)
    ensures Finish(None, words) == words
  {
    if words.Some? { assert [] + words.value == words.value; }
  }

  function PrependAll(options: seq<string>, words: Option<seq<Word>>): Option<seq<Word>> {
    if options == [] then words else Finish(Some(Plain(options[0])), PrependAll(options[1..], words))
  }

  lemma {:induction false} PrependShape(options: seq<string>, words: seq<Word>)
    ensures PrependAll(options, Some(words)) ==
            Some(seq(|options|, i requires 0 <= i < |options| => Plain(options[i])) + words)
    decreases |options|
  {
    var heads := seq(|options|, i requires 0 <= i < |options| => Plain(options[i]));
    if options == [] {
      assert heads + words == words;
    } else {
      PrependShape(options[1..], words);
      var tails := seq(|options| - 1, i requires 0 <= i < |options| - 1 => Plain(options[1..][i]));
      assert heads == [Plain(options[0])] + tails;
      assert [Plain(options[0])] + (tails + words) == heads + words;
    }
  }

  /** The source argument is one word: the directory literally, the glob active. */
  lemma SourceReads(sourceDir: string, glob: string)
    requires Ordinary(glob)
    ensures Lex(Quote(sourceDir) + "/" + glob, None) == Some([Literal(sourceDir) + Plain("/" + glob)])
  {
    hide Lex, LexQuoted, Literal, Plain;
    var tail := "/" + glob;
    assert Quote(sourceDir) + "/" + glob == "'" + (EscapeQuotes(sourceDir) + "'" + tail);
    OpenQuote(EscapeQuotes(sourceDir) + "'" + tail, None);
    QuotedReads(sourceDir, [], tail);
    assert [] + Literal(sourceDir) == Literal(sourceDir);
    assert tail + [] == tail;
    assert forall i | 0 < i < |tail| :: tail[i] == glob[i - 1];
    PlainReads(tail, Some(Literal(sourceDir)), []);
    EndOfLine(Literal(sourceDir) + Plain(tail));
  }

  lemma EndOfLine(w: Word)
    ensures Lex([], Some(w)) == Some([w])
  {
    assert [w] + [] == [w];
  }

  /** For every directory name the remote shell sees the command, the fixed options, and
      one more word whose quoted part is exactly the directory. */
  lemma CommandReads(options: seq<string>, sourceDir: string, glob: string)
    requires (forall i | 0 <= i < |options| :: Ordinary(options[i])) && Ordinary(glob)
    ensures Lex(RemoteCommand(options, sourceDir, glob), None) ==
            Some([Plain("rsync")] + seq(|options|, i requires 0 <= i < |options| => Plain(options[i]))
                 + [Literal(sourceDir) + Plain("/" + glob)])
  {
    hide Lex, Literal, Quote, Plain;
    var last := Quote(sourceDir) + "/" + glob;
    var all := ["rsync"] + options;
    assert all + [last] == ["rsync"] + (options + [last]);
    assert (all + [last])[1..] == options + [last];
    assert JoinWords(all + [last]) == "rsync " + JoinWords(options + [last]) by {
      assert "rsync" + " " + JoinWords(options + [last]) == "rsync " + JoinWords(options + [last]);
    }
    assert forall i | 0 <= i < |all| :: Ordinary(all[i]);
    OptionsRead(all, last);
    SourceReads(sourceDir, glob);
    PrependShape(all, [Literal(sourceDir) + Plain("/" + glob)]);
    FinishNone(PrependAll(all, Some([Literal(sourceDir) + Plain("/" + glob)])));
    var heads := seq(|options|, i requires 0 <= i < |options| => Plain(options[i]));
    assert seq(|all|, i requires 0 <= i < |all| => Plain(all[i])) == [Plain("rsync")] + heads;
  }

  const SERVER_OPTIONS: seq<string> := ["--server", "--sender", "-vlogDtpr", "."]
  const LATEST_GLOB := "latest-*.db"

  /** The command as it is documented, for every directory name and without any further
      assumption. */
  lemma DocumentedCommandReads(sourceDir: string)
    ensures Lex(RemoteCommand(SERVER_OPTIONS, sourceDir, LATEST_GLOB), None) ==
            Some([Plain("rsync"), Plain("--server"), Plain("--sender"), Plain("-vlogDtpr"), Plain("."),
                  Literal(sourceDir) + Plain("/latest-*.db")])
  {
    hide Lex, Literal, Plain, RemoteCommand;
    CommandReads(SERVER_OPTIONS, sourceDir, LATEST_GLOB);
    var words := seq(|SERVER_OPTIONS|, i requires 0 <= i < |SERVER_OPTIONS| => Plain(SERVER_OPTIONS[i]));
    assert words == [Plain("--server"), Plain("--sender"), Plain("-vlogDtpr"), Plain(".")];
    var last := Literal(sourceDir) + Plain("/" + LATEST_GLOB);
    assert "/" + LATEST_GLOB == "/latest-*.db";
    assert [Plain("rsync")] + words + [last] ==
           [Plain("rsync"), Plain("--server"), Plain("--sender"), Plain("-vlogDtpr"), Plain("."), last];
  }

  predicate PatternChar(c: char) { c == '*' || c == '?' || c == '[' }

  /** What the remote shell makes of the last word of the command: its first characters are
      the directory, none of them active, and every active pattern character in the whole
      word is one of the glob's. */
  lemma OnlyGlobIsActive(options: seq<string>, sourceDir: string, glob: string, i: nat)
    requires (forall k | 0 <= k < |options| :: Ordinary(options[k])) && Ordinary(glob)
    requires i < |sourceDir| + 1 + |glob|
    ensures var words := Lex(RemoteCommand(options, sourceDir, glob), None);
            && words.Some? && |words.value| == |options| + 2
            && var word := words.value[|words.value| - 1];
               && |word| == |sourceDir| + 1 + |glob|
               && (i < |sourceDir| ==> word[i] == WordChar(sourceDir[i], true))
               && (PatternChar(word[i].c) && !word[i].quoted ==>
                     i > |sourceDir| && word[i].c == glob[i - |sourceDir| - 1])
  {
    hide Lex, RemoteCommand;
    CommandReads(options, sourceDir, glob);
  }
}
