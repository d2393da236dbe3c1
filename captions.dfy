/**
 * `smart_vtt.py`: the words of a Whisper transcript are grouped into phrases at
 * the pauses, the phrases are cut into captions of bounded duration at
 * punctuation where possible, and every caption is turned into one line of text.
 * Times are seconds, as exact reals.
 */
module Captions {
  import opened Common

  /** What indexing the first character of an empty caption text raises. */
  const EMPTY_TEXT := "IndexError: string index out of range"

  /** One transcribed word: its text, its time span, and Whisper's confidence when present. */
  datatype Word = Word(text: string, start: real, end: real, probability: Option<real>)

  /** A phrase: the words, and the span from the start of the first to the end of the last. */
  datatype Phrase = Phrase(start: real, end: real, words: seq<Word>)

  /** The structured transcript: a top-level word list, or one word list per segment. */
  datatype Transcript = Transcript(words: Option<seq<Word>>, segments: seq<seq<Word>>)

  /** The record built for a run of words. */
  function PhraseOf(ws: seq<Word>): (p: Phrase)
    requires ws != []
    ensures p.words == ws && p.start == ws[0].start && p.end == ws[|ws| - 1].end
  {
    Phrase(ws[0].start, ws[|ws| - 1].end, ws)
  }

  // ---------------------------------------------------------------------------
  // Gathering and normalising the words
  // ---------------------------------------------------------------------------

  predicate SortedByStart(ws: seq<Word>) {
    forall i, j :: 0 <= i < j < |ws| ==> ws[i].start <= ws[j].start
  }

  /** Stable insertion: `x` goes after every word that does not start later. */
  function InsertByStart(x: Word, s: seq<Word>): seq<Word> {
    if s == [] || s[|s| - 1].start <= x.start then s + [x]
    else InsertByStart(x, s[..|s| - 1]) + [s[|s| - 1]]
  }

  /** Insertion adds `x` to the words. */
  lemma {:induction false} InsertByStartMultiset(x: Word, s: seq<Word>)
    ensures multiset(InsertByStart(x, s)) == multiset(s) + multiset{x}
  {
    if !(s == [] || s[|s| - 1].start <= x.start) {
      var init := s[..|s| - 1];
      assert s == init + [s[|s| - 1]];
      InsertByStartMultiset(x, init);
    }
  }

  /** Every word after insertion is `x` or a word of `s`. */
  lemma {:induction false} InsertByStartFrom(x: Word, s: seq<Word>)
    ensures forall i :: 0 <= i < |InsertByStart(x, s)| ==> InsertByStart(x, s)[i] == x || InsertByStart(x, s)[i] in s
  {
    if !(s == [] || s[|s| - 1].start <= x.start) {
      var init := s[..|s| - 1];
      InsertByStartFrom(x, init);
      var r' := InsertByStart(x, init);
      var r := r' + [s[|s| - 1]];
      forall i | 0 <= i < |r|
        ensures r[i] == x || r[i] in s
      {
        if i < |r'| {
          assert r[i] == r'[i];
          assert r'[i] in init ==> r'[i] in s;
        }
      }
    }
  }

  /** Insertion into a list sorted by start time keeps it sorted. */
  lemma {:induction false} InsertByStartSorted(x: Word, s: seq<Word>)
    requires SortedByStart(s)
    ensures SortedByStart(InsertByStart(x, s))
  {
    if s == [] || s[|s| - 1].start <= x.start {
      var r := s + [x];
      forall i, j | 0 <= i < j < |r|
        ensures r[i].start <= r[j].start
      {
        if j == |s| {
          assert r[i] == s[i] && s[i].start <= s[|s| - 1].start;
        } else {
          assert r[i] == s[i] && r[j] == s[j];
        }
      }
    } else {
      var init, last := s[..|s| - 1], s[|s| - 1];
      assert SortedByStart(init);
      InsertByStartSorted(x, init);
      InsertByStartFrom(x, init);
      var r' := InsertByStart(x, init);
      var r := r' + [last];
      forall i, j | 0 <= i < j < |r|
        ensures r[i].start <= r[j].start
      {
        if j == |r'| {
          assert r[i] == r'[i];
          if r'[i] != x {
            var k :| 0 <= k < |init| && init[k] == r'[i];
            assert s[k] == init[k];
          }
        } else {
          assert r[i] == r'[i] && r[j] == r'[j];
        }
      }
    }
  }

  /** `words.sort(key=lambda x: x['start'])`, by stable insertion. */
  function SortByStart(ws: seq<Word>): seq<Word> {
    if ws == [] then []
    else InsertByStart(ws[|ws| - 1], SortByStart(ws[..|ws| - 1]))
  }

  /** The sorted list holds the same words, ordered by start time. */
  lemma SortByStartSpec(ws: seq<Word>)
    ensures multiset(SortByStart(ws)) == multiset(ws)
    ensures SortedByStart(SortByStart(ws))
  {
    SortByStartPermutes(ws);
    SortByStartSorts(ws);
  }

  lemma {:induction false} SortByStartPermutes(ws: seq<Word>)
    ensures multiset(SortByStart(ws)) == multiset(ws)
  {
    if ws != [] {
      var init, last := ws[..|ws| - 1], ws[|ws| - 1];
      SortByStartPermutes(init);
      InsertByStartMultiset(last, SortByStart(init));
      assert multiset(SortByStart(ws)) == multiset(init) + multiset{last};
      assert multiset(ws) == multiset(init) + multiset{last} by {
        assert ws == init + [last];
      }
    }
  }

  lemma {:induction false} SortByStartSorts(ws: seq<Word>)
    ensures SortedByStart(SortByStart(ws))
  {
    if ws != [] {
      var init := ws[..|ws| - 1];
      SortByStartSorts(init);
      InsertByStartSorted(ws[|ws| - 1], SortByStart(init));
    }
  }

  /** The word list: the top-level one as given, or the segments' words in order, sorted by start. */
  function GatherWords(stt: Transcript): (ws: seq<Word>)
    ensures stt.words.Some? ==> ws == stt.words.value
    ensures stt.words.None? ==> multiset(ws) == multiset(Flatten(stt.segments)) && SortedByStart(ws)
  {
    if stt.words.Some? then stt.words.value
    else
      SortByStartSpec(Flatten(stt.segments));
      SortByStart(Flatten(stt.segments))
  }

  /** A word with its surrounding whitespace stripped and its `probability` removed. */
  function NormalizeWord(w: Word): (r: Word)
  {
    w.(text := Strip(w.text), probability := None)
  }

  /** A normalised word has no whitespace at either end, and keeps the slice of its text between the leading and the trailing whitespace. */
  lemma NormalizeWordText(w: Word)
    ensures var t := NormalizeWord(w).text;
      && (t == [] || (!IsSpace(t[0]) && !IsSpace(t[|t| - 1])))
      && LeadingSpaces(w.text) + |t| <= |w.text|
      && t == w.text[LeadingSpaces(w.text)..LeadingSpaces(w.text) + |t|]
  {
    StripSlice(w.text);
  }

  /** Normalising a normalised word changes nothing. */
  lemma NormalizeWordIdempotent(w: Word)
    ensures NormalizeWord(NormalizeWord(w)) == NormalizeWord(w)
  {
    StripIdempotent(w.text);
  }

  /** The normalising loop of `main`: every word record is updated in place. */
  method NormalizeWords(words: array<Word>)
    modifies words
    ensures forall i :: 0 <= i < words.Length ==> words[i] == NormalizeWord(old(words[i]))
  {
    ghost var before := words[..];
    for i := 0 to words.Length
      invariant words[i..] == before[i..]
      invariant forall j :: 0 <= j < i ==> words[j] == NormalizeWord(before[j])
    {
      words[i] := NormalizeWord(words[i]);
      assert words[i + 1..] == before[i + 1..];
    }
  }

  // ---------------------------------------------------------------------------
  // Phrase grouping
  // ---------------------------------------------------------------------------

  /** A word joins the phrase of the word before it when it starts less than `gap` after that word ends. */
  predicate Continues(prev: Word, next: Word, gap: real) {
    next.start - prev.end < gap
  }

  /** The phrases of `main`, as runs of words, built from the last word back. */
  function Groups(ws: seq<Word>, gap: real): (g: seq<seq<Word>>)
    ensures |ws| == 0 <==> |g| == 0
    ensures forall k :: 0 <= k < |g| ==> g[k] != []
    ensures g != [] ==> g[|g| - 1][|g[|g| - 1]| - 1] == ws[|ws| - 1]
  {
    if ws == [] then []
    else if |ws| == 1 then [ws]
    else
      var g := Groups(ws[..|ws| - 1], gap);
      var last := ws[|ws| - 1];
      if Continues(ws[|ws| - 2], last, gap) then g[..|g| - 1] + [g[|g| - 1] + [last]]
      else g + [[last]]
  }

  /** The phrases, put back together, are the word list. */
  lemma {:induction false} GroupsFlatten(ws: seq<Word>, gap: real)
    ensures Flatten(Groups(ws, gap)) == ws
  {
    if |ws| == 1 {
      FlattenSnoc([], ws);
    } else if |ws| > 1 {
      var init := ws[..|ws| - 1];
      calc {
        Flatten(Groups(ws, gap));
        { GroupsFlattenStep(ws, gap); }
        Flatten(Groups(init, gap)) + [ws[|ws| - 1]];
        { GroupsFlatten(init, gap); }
        init + [ws[|ws| - 1]];
        ws;
      }
    }
  }

  /** The last word adds itself at the end of the flattened groups. */
  lemma GroupsFlattenStep(ws: seq<Word>, gap: real)
    requires |ws| > 1
    ensures Flatten(Groups(ws, gap)) == Flatten(Groups(ws[..|ws| - 1], gap)) + [ws[|ws| - 1]]
  {
    var init := ws[..|ws| - 1];
    var last := ws[|ws| - 1];
    var g := Groups(init, gap);
    if Continues(ws[|ws| - 2], last, gap) {
      var rest, gl := g[..|g| - 1], g[|g| - 1];
      calc {
        Flatten(Groups(ws, gap));
        { GroupsSnoc(ws, gap, |ws| - 1); assert ws[..|ws| - 1] == init; }
        Flatten(rest + [gl + [last]]);
        { FlattenSnoc(rest, gl + [last]); }
        Flatten(rest) + (gl + [last]);
        Flatten(rest) + gl + [last];
        { FlattenSnoc(rest, gl); assert g == rest + [gl]; }
        Flatten(g) + [last];
      }
    } else {
      calc {
        Flatten(Groups(ws, gap));
        { GroupsSnoc(ws, gap, |ws| - 1); assert ws[..|ws| - 1] == init; }
        Flatten(g + [[last]]);
        { FlattenSnoc(g, [last]); }
        Flatten(g) + [last];
      }
    }
  }

  /** Inside a phrase every word continues the one before it. */
  lemma {:induction false} GroupsInside(ws: seq<Word>, gap: real, k: nat, j: nat)
    requires k < |Groups(ws, gap)| && 0 < j < |Groups(ws, gap)[k]|
    ensures Continues(Groups(ws, gap)[k][j - 1], Groups(ws, gap)[k][j], gap)
  {
    var init := ws[..|ws| - 1];
    var g := Groups(init, gap);
    var last := ws[|ws| - 1];
    var h := Groups(ws, gap);
    assert |ws| > 1;
    if Continues(ws[|ws| - 2], last, gap) {
      if k < |g| - 1 {
        assert h[k] == g[k];
        GroupsInside(init, gap, k, j);
      } else if j < |g[|g| - 1]| {
        assert h[k][j - 1] == g[k][j - 1] && h[k][j] == g[k][j];
        GroupsInside(init, gap, k, j);
      } else {
        assert h[k][j - 1] == g[|g| - 1][|g[|g| - 1]| - 1] == ws[|ws| - 2];
      }
    } else {
      assert h[k] == g[k];
      GroupsInside(init, gap, k, j);
    }
  }

  /** One more word leaves the groups before the last one as they were, and every group's first word. */
  lemma GroupsKeep(ws: seq<Word>, gap: real, k: nat)
    requires |ws| > 1 && k < |Groups(ws[..|ws| - 1], gap)|
    ensures var g, h := Groups(ws[..|ws| - 1], gap), Groups(ws, gap);
      && k < |h| && h[k][0] == g[k][0]
      && (k < |g| - 1 ==> h[k] == g[k])
      && (!Continues(ws[|ws| - 2], ws[|ws| - 1], gap) ==> h[k] == g[k])
  {
    GroupsSnoc(ws, gap, |ws| - 1);
    assert ws[..|ws| - 1 + 1] == ws;
  }

  /** A new group opens exactly when the last word does not continue the one before it. */
  lemma GroupsOpen(ws: seq<Word>, gap: real)
    requires |ws| > 1
    ensures var g, h := Groups(ws[..|ws| - 1], gap), Groups(ws, gap);
      |h| == |g| + 1 ==> !Continues(ws[|ws| - 2], ws[|ws| - 1], gap) && h[|g|] == [ws[|ws| - 1]]
  {
    GroupsSnoc(ws, gap, |ws| - 1);
    assert ws[..|ws| - 1 + 1] == ws;
  }

  /** The first word of every phrase after the first starts at least `gap` after the previous phrase ends. */
  lemma {:induction false} GroupsBetween(ws: seq<Word>, gap: real, k: nat)
    requires 0 < k < |Groups(ws, gap)|
    ensures var g := Groups(ws, gap);
      !Continues(g[k - 1][|g[k - 1]| - 1], g[k][0], gap)
  {
    var init := ws[..|ws| - 1];
    var g := Groups(init, gap);
    assert |ws| > 1;
    GroupsKeep(ws, gap, k - 1);
    if k < |g| {
      GroupsKeep(ws, gap, k);
      GroupsBetween(init, gap, k);
    } else {
      GroupsOpen(ws, gap);
    }
  }

  /** The groups of one more word of the list. */
  lemma GroupsSnoc(ws: seq<Word>, gap: real, i: nat)
    requires 0 < i < |ws|
    ensures var g, h := Groups(ws[..i], gap), Groups(ws[..i + 1], gap);
      if Continues(ws[i - 1], ws[i], gap) then h == g[..|g| - 1] + [g[|g| - 1] + [ws[i]]]
      else h == g + [[ws[i]]]
  {
    assert ws[..i + 1][..i] == ws[..i];
  }

  /** The state of the grouping loop after `ws`: the closed phrases and the open buffer. */
  predicate Grouped(ws: seq<Word>, gap: real, phrases: seq<Phrase>, buffer: seq<Word>) {
    ws != [] &&
    var g := Groups(ws, gap);
    phrases == ToPhrases(g[..|g| - 1]) && buffer == g[|g| - 1]
  }

  /** One word through the grouping loop: it joins the buffer, or closes it and opens a new one. */
  lemma GroupedStep(ws: seq<Word>, gap: real, i: nat, phrases: seq<Phrase>, buffer: seq<Word>)
    requires 0 < i < |ws| && Grouped(ws[..i], gap, phrases, buffer)
    ensures Continues(ws[i - 1], ws[i], gap) ==> Grouped(ws[..i + 1], gap, phrases, buffer + [ws[i]])
    ensures !Continues(ws[i - 1], ws[i], gap) ==> Grouped(ws[..i + 1], gap, phrases + [PhraseOf(buffer)], [ws[i]])
  {
    GroupsSnoc(ws, gap, i);
    var g, h := Groups(ws[..i], gap), Groups(ws[..i + 1], gap);
    if Continues(ws[i - 1], ws[i], gap) {
      assert h[..|h| - 1] == g[..|g| - 1];
    } else {
      assert h[..|h| - 1] == g;
      assert g == g[..|g| - 1] + [g[|g| - 1]];
    }
  }

  /** Closing the buffer at the end of the loop gives every phrase. */
  lemma GroupedDone(ws: seq<Word>, gap: real, phrases: seq<Phrase>, buffer: seq<Word>)
    requires Grouped(ws, gap, phrases, buffer)
    ensures phrases + [PhraseOf(buffer)] == ToPhrases(Groups(ws, gap))
  {
    var g := Groups(ws, gap);
    assert g == g[..|g| - 1] + [g[|g| - 1]];
  }

  /** The grouping loop of `main`, with `last_end` and the running `buffer`. */
  method GroupPhrases(words: seq<Word>, gap: real) returns (phrases: seq<Phrase>)
    ensures phrases == ToPhrases(Groups(words, gap))
  {
    phrases := [];
    var lastEnd: Option<real> := None;
    var buffer: seq<Word> := [];
    for i := 0 to |words|
      invariant i == 0 ==> phrases == [] && buffer == [] && lastEnd == None
      invariant i > 0 ==> lastEnd == Some(words[i - 1].end) && Grouped(words[..i], gap, phrases, buffer)
    {
      var word := words[i];
      if i == 0 {
        assert words[..1] == [word];
        buffer := [word];
      } else {
        GroupedStep(words, gap, i, phrases, buffer);
        if word.start - lastEnd.value < gap {
          buffer := buffer + [word];
        } else {
          phrases := phrases + [PhraseOf(buffer)];
          buffer := [word];
        }
      }
      lastEnd := Some(word.end);
    }
    if buffer != [] {
      assert words[..|words|] == words;
      GroupedDone(words, gap, phrases, buffer);
      phrases := phrases + [PhraseOf(buffer)];
    }
  }

  // ---------------------------------------------------------------------------
  // phrase2text
  // ---------------------------------------------------------------------------

  /** Words starting with these are glued to the text before them: hyphenation, percentages, thousands. */
  predicate IsGlue(c: char) {
    c == '-' || c == '%' || c == ','
  }

  /**
   * One step of `phrase2text`: the first text is taken as it is; later a word is
   * appended, after a space unless it starts with a glue character. Reading the
   * first character of an empty word raises `IndexError`.
   */
  function Glue(acc: string, t: string): Result<string> {
    if acc == "" then Ok(t)
    else if t == "" then Err(EMPTY_TEXT)
    else if IsGlue(t[0]) then Ok(acc + t)
    else Ok(acc + " " + t)
  }

  /** `phrase2text` on a list of words. */
  function Text(ws: seq<Word>): Result<string> {
    if ws == [] then Ok("")
    else match Text(ws[..|ws| - 1])
      case Err(e) => Err(e)
      case Ok(acc) => Glue(acc, ws[|ws| - 1].text)
  }

  /** `phrase2text`: the accumulating loop. */
  method PhraseText(ws: seq<Word>) returns (r: Result<string>)
    ensures r == Text(ws)
  {
    var words := "";
    for i := 0 to |ws|
      invariant Text(ws[..i]) == Ok(words)
    {
      assert ws[..i + 1][..i] == ws[..i];
      var t := ws[i].text;
      if words == "" {
        words := t;
      } else if t == "" {
        TextErrorStays(ws, i + 1);
        return Err(EMPTY_TEXT);
      } else if IsGlue(t[0]) {
        words := words + t;
      } else {
        words := words + " " + t;
      }
    }
    assert ws[..|ws|] == ws;
    r := Ok(words);
  }

  /** Once `phrase2text` has raised on a prefix, the rest of the words change nothing. */
  lemma {:induction false} TextErrorStays(ws: seq<Word>, i: nat)
    requires i <= |ws| && Text(ws[..i]).Err?
    ensures Text(ws) == Text(ws[..i])
    decreases |ws| - i
  {
    if i < |ws| {
      var init := ws[..|ws| - 1];
      assert init[..i] == ws[..i];
      TextErrorStays(init, i);
    } else {
      assert ws[..i] == ws;
    }
  }

  /** Whether the word list has an empty word after a non-empty one. */
  predicate EmptyAfterText(ws: seq<Word>) {
    exists j, k :: 0 <= j < k < |ws| && ws[j].text != "" && ws[k].text == ""
  }

  /** The text is empty exactly while every word so far is empty. */
  lemma {:induction false} TextEmpty(ws: seq<Word>)
    requires Text(ws).Ok?
    ensures Text(ws).value == "" <==> forall j :: 0 <= j < |ws| ==> ws[j].text == ""
  {
    if ws != [] {
      var init := ws[..|ws| - 1];
      TextEmpty(init);
      assert forall j :: 0 <= j < |init| ==> init[j] == ws[j];
    }
  }

  /** `phrase2text` raises exactly when an empty word follows a non-empty one. */
  lemma {:induction false} TextFails(ws: seq<Word>)
    ensures Text(ws).Err? <==> EmptyAfterText(ws)
  {
    if ws != [] {
      var init := ws[..|ws| - 1];
      var n := |ws| - 1;
      TextFails(init);
      assert forall j :: 0 <= j < |init| ==> init[j] == ws[j];
      if EmptyAfterText(init) {
        var j, k :| 0 <= j < k < |init| && init[j].text != "" && init[k].text == "";
        assert ws[j].text != "" && ws[k].text == "";
      }
      if Text(init).Ok? {
        TextEmpty(init);
        if EmptyAfterText(ws) && !EmptyAfterText(init) {
          var j, k :| 0 <= j < k < |ws| && ws[j].text != "" && ws[k].text == "";
          assert k == n;
        }
      }
    }
  }

  /** With no empty word and no glue character, the text is the words joined by single spaces. */
  lemma {:induction false} TextJoin(ws: seq<Word>)
    requires forall j :: 0 <= j < |ws| ==> ws[j].text != "" && !IsGlue(ws[j].text[0])
    ensures Text(ws) == Ok(Join(Texts(ws), ' '))
  {
    if |ws| > 1 {
      var init := ws[..|ws| - 1];
      TextJoin(init);
      assert Texts(ws) == Texts(init) + [ws[|ws| - 1].text];
      JoinSnoc(Texts(init), ws[|ws| - 1].text, ' ');
      assert Join(Texts(init), ' ') != "" by {
        assert Texts(init)[0] == init[0].text;
        JoinHead(Texts(init), ' ');
      }
    } else if |ws| == 1 {
      assert Texts(ws) == [ws[0].text];
    }
  }

  /** The texts of the words. */
  function Texts(ws: seq<Word>): (ts: seq<string>)
    ensures |ts| == |ws| && forall i :: 0 <= i < |ws| ==> ts[i] == ws[i].text
  {
    if ws == [] then [] else Texts(ws[..|ws| - 1]) + [ws[|ws| - 1].text]
  }

  lemma {:induction false} JoinSnoc(parts: seq<string>, x: string, sep: char)
    requires parts != []
    ensures Join(parts + [x], sep) == Join(parts, sep) + [sep] + x
  {
    if |parts| == 1 {
      assert (parts + [x])[1..] == [x];
    } else {
      JoinSnoc(parts[1..], x, sep);
      assert (parts + [x])[1..] == parts[1..] + [x];
    }
  }

  lemma {:induction false} JoinHead(parts: seq<string>, sep: char)
    requires parts != []
    ensures parts[0] <= Join(parts, sep)
  {
  }

  // ---------------------------------------------------------------------------
  // splitphrase
  // ---------------------------------------------------------------------------

  /** The characters that end a sentence or a clause. */
  predicate IsPunct(c: char) {
    c == '.' || c == ',' || c == '?' || c == '!'
  }

  /** How long the run of words from `first` to `here` lasts. */
  function Duration(w: seq<Word>, first: nat, here: nat): real
    requires first <= here < |w|
  {
    w[here].end - w[first].start
  }

  /** The first word from `here` on at which the run that starts at `first` is over the limit, or `|w|`. */
  function FirstOver(w: seq<Word>, first: nat, here: nat, limit: real): (e: nat)
    requires first <= here <= |w|
    ensures here <= e <= |w|
    ensures e < |w| ==> Duration(w, first, e) > limit
    ensures forall k :: here <= k < e ==> Duration(w, first, k) <= limit
    decreases |w| - here
  {
    if here == |w| then here
    else if Duration(w, first, here) > limit then here
    else FirstOver(w, first, here + 1, limit)
  }

  /**
   * The back-up scan over `buffer[-i]` for `i` in `range(1, len(buffer) - 1)`: the
   * first `i` whose word ends in punctuation, or none. The last character of an
   * empty word raises `IndexError`.
   */
  function BackUpFrom(buffer: seq<Word>, i: nat): Result<Option<nat>>
    requires i >= 1
    decreases |buffer| - i
  {
    if i >= |buffer| - 1 then Ok(None)
    else
      var t := buffer[|buffer| - i].text;
      if t == "" then Err(EMPTY_TEXT)
      else if IsPunct(t[|t| - 1]) then Ok(Some(i))
      else BackUpFrom(buffer, i + 1)
  }

  /** What the scan finds is in range and ends in punctuation. */
  lemma {:induction false} BackUpSpec(buffer: seq<Word>, i: nat)
    requires i >= 1
    ensures BackUpFrom(buffer, i).Ok? && BackUpFrom(buffer, i).value.Some? ==>
      var j := BackUpFrom(buffer, i).value.value;
      i <= j <= |buffer| - 2 && EndsInPunct(buffer[..|buffer| - j + 1])
    decreases |buffer| - i
  {
    if i < |buffer| - 1 {
      BackUpSpec(buffer, i + 1);
    }
  }

  /** The scan takes the nearest punctuated word: every word it passed over has text and no final punctuation. */
  lemma {:induction false} BackUpFirst(buffer: seq<Word>, i: nat, m: nat)
    requires i >= 1 && BackUpFrom(buffer, i).Ok? && BackUpFrom(buffer, i).value.Some?
    requires i <= m < BackUpFrom(buffer, i).value.value
    ensures m < |buffer| && buffer[|buffer| - m].text != "" && !EndsInPunct(buffer[..|buffer| - m + 1])
    decreases |buffer| - i
  {
    if m > i {
      BackUpFirst(buffer, i + 1, m);
    }
  }

  function Last(t: string): char
    requires t != ""
  {
    t[|t| - 1]
  }

  /**
   * Where the caption that starts at `first` ends (exclusive): words are added
   * until the run lasts longer than `limit`. A run whose last word ends in
   * punctuation is kept whole; otherwise it is cut just after the nearest
   * punctuated word the back-up scan finds, and the words after it start the next
   * run; with none found the run is kept whole. A run that never goes over the
   * limit takes the rest of the words. The last character of an empty word at the
   * cut raises `IndexError`.
   */
  function NextCut(w: seq<Word>, first: nat, limit: real): (r: Result<nat>)
    requires first < |w|
    ensures r.Ok? ==> first < r.value <= |w|
  {
    var e := FirstOver(w, first, first, limit);
    if e == |w| then Ok(|w|)
    else
      var t := w[e].text;
      if t == "" then Err(EMPTY_TEXT)
      else if IsPunct(Last(t)) then Ok(e + 1)
      else match BackUpFrom(w[first..e + 1], 1)
        case Err(err) => Err(err)
        case Ok(None) => Ok(e + 1)
        case Ok(Some(i)) =>
          BackUpSpec(w[first..e + 1], 1);
          Ok(e - i + 2)
  }

  /** The captions `splitphrase` cuts from the words `w[first..]`, one run after another. */
  function Pieces(w: seq<Word>, first: nat, limit: real): Result<seq<seq<Word>>>
    requires first <= |w|
    decreases |w| - first
  {
    if first == |w| then Ok([])
    else match NextCut(w, first, limit)
      case Err(e) => Err(e)
      case Ok(c) => Concat([w[first..c]], Pieces(w, c, limit))
  }

  /** The captions found so far, before the ones still to come. */
  function Concat(done: seq<seq<Word>>, rest: Result<seq<seq<Word>>>): Result<seq<seq<Word>>> {
    match rest
    case Err(e) => Err(e)
    case Ok(ps) => Ok(done + ps)
  }

  /** The first caption from `first` on, then the rest. */
  lemma PiecesStep(w: seq<Word>, first: nat, c: nat, limit: real)
    requires first < |w| && NextCut(w, first, limit) == Ok(c)
    ensures Pieces(w, first, limit) == Concat([w[first..c]], Pieces(w, c, limit))
  {
  }

  /** Once no run goes over the limit, what is left is the last caption. */
  lemma PiecesLast(w: seq<Word>, first: nat, limit: real)
    requires first <= |w| && FirstOver(w, first, first, limit) == |w|
    ensures Pieces(w, first, limit) == if first == |w| then Ok([]) else Ok([w[first..]])
  {
    if first < |w| {
      assert NextCut(w, first, limit) == Ok(|w|);
      assert Pieces(w, |w|, limit) == Ok([]);
      assert w[first..|w|] == w[first..];
      assert [w[first..]] + [] == [w[first..]];
    }
  }

  lemma ConcatNil(rest: Result<seq<seq<Word>>>)
    ensures Concat([], rest) == rest
  {
    if rest.Ok? {
      assert [] + rest.value == rest.value;
    }
  }

  lemma ConcatAssoc(done: seq<seq<Word>>, piece: seq<Word>, rest: Result<seq<seq<Word>>>)
    ensures Concat(done, Concat([piece], rest)) == Concat(done + [piece], rest)
  {
    if rest.Ok? {
      assert done + ([piece] + rest.value) == done + [piece] + rest.value;
    }
  }

  /** The captions, put back together, are the words from `first` on, and none is empty. */
  lemma {:induction false} PiecesFlatten(w: seq<Word>, first: nat, limit: real)
    requires first <= |w| && Pieces(w, first, limit).Ok?
    ensures Flatten(Pieces(w, first, limit).value) == w[first..]
    ensures forall k :: 0 <= k < |Pieces(w, first, limit).value| ==> Pieces(w, first, limit).value[k] != []
    decreases |w| - first
  {
    if first < |w| {
      var c := NextCut(w, first, limit).value;
      PiecesFlatten(w, c, limit);
      var rest := Pieces(w, c, limit).value;
      assert Pieces(w, first, limit).value == [w[first..c]] + rest;
      FlattenCons(w[first..c], rest);
      assert w[first..c] + w[c..] == w[first..];
    }
  }

  /** `splitphrase` fails only on an empty word: when every word has text, the captions are found. */
  lemma {:induction false} PiecesOk(w: seq<Word>, first: nat, limit: real)
    requires first <= |w|
    requires forall k :: 0 <= k < |w| ==> w[k].text != ""
    ensures Pieces(w, first, limit).Ok?
    decreases |w| - first
  {
    if first < |w| {
      var e := FirstOver(w, first, first, limit);
      if e < |w| {
        BackUpNoError(w[first..e + 1], 1);
      }
      PiecesOk(w, NextCut(w, first, limit).value, limit);
    }
  }

  lemma {:induction false} BackUpNoError(buffer: seq<Word>, i: nat)
    requires i >= 1
    requires forall k :: 0 <= k < |buffer| ==> buffer[k].text != ""
    ensures BackUpFrom(buffer, i).Ok?
    decreases |buffer| - i
  {
    if i < |buffer| - 1 {
      BackUpNoError(buffer, i + 1);
    }
  }

  /** The caption's last word ends in punctuation. */
  predicate EndsInPunct(piece: seq<Word>) {
    piece != [] && piece[|piece| - 1].text != "" && IsPunct(Last(piece[|piece| - 1].text))
  }

  /**
   * Why a caption ends before the last word: it ends in a punctuated word, or it
   * is a run that went over the limit with no punctuated word for the scan to find.
   */
  lemma NextCutReason(w: seq<Word>, first: nat, limit: real)
    requires first < |w| && NextCut(w, first, limit).Ok? && NextCut(w, first, limit).value < |w|
    ensures var c := NextCut(w, first, limit).value;
      EndsInPunct(w[first..c]) || w[c - 1].end - w[first].start > limit
  {
    var e := FirstOver(w, first, first, limit);
    var buffer := w[first..e + 1];
    if !IsPunct(Last(w[e].text)) && BackUpFrom(buffer, 1).value.Some? {
      BackUpSpec(buffer, 1);
      var i := BackUpFrom(buffer, 1).value.value;
      assert buffer[..|buffer| - i + 1] == w[first..e - i + 2];
    }
  }

  /** A run that never goes over the limit before the end is the last caption. */
  lemma NextCutShort(w: seq<Word>, first: nat, limit: real)
    requires first < |w|
    requires forall k :: first <= k < |w| ==> w[k].end - w[first].start <= limit
    ensures NextCut(w, first, limit) == Ok(|w|)
  {
    FirstOverNone(w, first, first, limit);
  }

  /** A single word that is longer than the limit on its own is a caption on its own. */
  lemma LongWordAlone(w: seq<Word>, first: nat, limit: real)
    requires first < |w| && w[first].end - w[first].start > limit
    requires w[first].text != ""
    ensures NextCut(w, first, limit) == Ok(first + 1)
  {
    assert FirstOver(w, first, first, limit) == first;
    assert BackUpFrom(w[first..first + 1], 1) == Ok(None);
  }

  lemma {:induction false} FirstOverNone(w: seq<Word>, first: nat, here: nat, limit: real)
    requires first <= here <= |w|
    requires forall k :: here <= k < |w| ==> Duration(w, first, k) <= limit
    ensures FirstOver(w, first, here, limit) == |w|
    decreases |w| - here
  {
    if here < |w| {
      FirstOverNone(w, first, here + 1, limit);
    }
  }

  /** The phrase records of the captions, as the conversion loop of `splitphrase` builds them. */
  function ToPhrases(ps: seq<seq<Word>>): (r: seq<Phrase>)
    requires forall k :: 0 <= k < |ps| ==> ps[k] != []
    ensures |r| == |ps| && forall k :: 0 <= k < |ps| ==> r[k] == PhraseOf(ps[k])
  {
    if ps == [] then [] else ToPhrases(ps[..|ps| - 1]) + [PhraseOf(ps[|ps| - 1])]
  }

  /** No caption makes `phrase2text` raise. */
  predicate TextsOk(ps: seq<seq<Word>>) {
    forall k :: 0 <= k < |ps| ==> Text(ps[k]).Ok?
  }

  /**
   * `splitphrase(phrase, limit)`: the captions as phrases. Printing each caption's
   * text calls `phrase2text`, whose `IndexError` also escapes.
   */
  function SplitPhrase(p: Phrase, limit: real): Result<seq<Phrase>> {
    match Pieces(p.words, 0, limit)
    case Err(e) => Err(e)
    case Ok(ps) =>
      PiecesFlatten(p.words, 0, limit);
      if TextsOk(ps) then Ok(ToPhrases(ps)) else Err(EMPTY_TEXT)
  }

  /** `splitphrase` keeps every word, in order, and each caption spans its own words. */
  lemma SplitPhraseSpec(p: Phrase, limit: real)
    requires SplitPhrase(p, limit).Ok?
    ensures var ps := SplitPhrase(p, limit).value;
      && Flatten(PhraseWords(ps)) == p.words
      && forall k :: 0 <= k < |ps| ==> ps[k].words != [] && ps[k] == PhraseOf(ps[k].words)
  {
    var pieces := Pieces(p.words, 0, limit).value;
    PiecesFlatten(p.words, 0, limit);
    var ps := SplitPhrase(p, limit).value;
    assert PhraseWords(ps) == pieces;
    assert p.words[0..] == p.words;
  }

  /** The word lists of the phrases. */
  function PhraseWords(ps: seq<Phrase>): (r: seq<seq<Word>>)
    ensures |r| == |ps| && forall k :: 0 <= k < |ps| ==> r[k] == ps[k].words
  {
    if ps == [] then [] else PhraseWords(ps[..|ps| - 1]) + [ps[|ps| - 1].words]
  }

  /** The back-up scan of `splitphrase`, on the current buffer. */
  method BackUp(buffer: seq<Word>) returns (r: Result<Option<nat>>)
    ensures r == BackUpFrom(buffer, 1)
  {
    var i := 1;
    while i < |buffer| - 1
      invariant 1 <= i
      invariant BackUpFrom(buffer, 1) == BackUpFrom(buffer, i)
      decreases |buffer| - i
    {
      var t := buffer[|buffer| - i].text;
      if t == "" {
        return Err(EMPTY_TEXT);
      }
      if IsPunct(t[|t| - 1]) {
        return Ok(Some(i));
      }
      i := i + 1;
    }
    r := Ok(None);
  }

  /**
   * What `splitphrase` does once the buffer `w[first..here + 1]` has gone over the
   * limit: the caption it emits, and the new value of `here`, where that caption ends.
   */
  method CutBuffer(w: seq<Word>, ghost first: nat, here: nat, buffer: seq<Word>, limit: real)
    returns (r: Result<(seq<Word>, nat)>)
    requires first <= here < |w| && buffer == w[first..here + 1]
    requires FirstOver(w, first, first, limit) == here
    ensures r.Err? ==> NextCut(w, first, limit) == Err(r.reason)
    ensures r.Ok? ==> NextCut(w, first, limit) == Ok(r.value.1) && r.value.0 == w[first..r.value.1]
  {
    var t := w[here].text;
    if t == "" {
      return Err(EMPTY_TEXT);
    }
    if IsPunct(t[|t| - 1]) {
      return Ok((buffer, here + 1));
    }
    var found := BackUp(buffer);
    if found.Err? {
      return Err(found.reason);
    }
    if found.value.Some? {
      var i := found.value.value;
      BackUpSpec(buffer, 1);
      assert buffer[0..|buffer| - i + 1] == w[first..here - i + 2];
      r := Ok((buffer[0..|buffer| - i + 1], here - (i - 2)));
    } else {
      r := Ok((buffer, here + 1));
    }
  }

  /**
   * The state of the cutting loop: the buffer holds the words from `first` up to
   * `here`, none of which has gone over the limit, and the captions cut so far,
   * followed by the captions from `first` on, are all the captions.
   */
  ghost predicate Cutting(w: seq<Word>, limit: real, first: nat, here: nat, buffer: seq<Word>, start: real, results: seq<seq<Word>>) {
    && first <= here <= |w|
    && buffer == w[first..here]
    && (buffer != [] ==> start == w[first].start)
    && FirstOver(w, first, first, limit) == FirstOver(w, first, here, limit)
    && Pieces(w, 0, limit) == Concat(results, Pieces(w, first, limit))
  }

  /** The next word joins the buffer; it either stays within the limit or is where the run goes over. */
  lemma CuttingNext(w: seq<Word>, limit: real, first: nat, here: nat, buffer: seq<Word>, start: real, results: seq<seq<Word>>)
    requires Cutting(w, limit, first, here, buffer, start, results) && here < |w|
    ensures buffer + [w[here]] == w[first..here + 1]
    ensures (if buffer == [] then w[here].start else start) == w[first].start
    ensures Duration(w, first, here) <= limit ==>
      Cutting(w, limit, first, here + 1, buffer + [w[here]], if buffer == [] then w[here].start else start, results)
    ensures Duration(w, first, here) > limit ==> FirstOver(w, first, first, limit) == here
  {
    assert w[first..here] + [w[here]] == w[first..here + 1];
    if Duration(w, first, here) <= limit {
      assert FirstOver(w, first, here, limit) == FirstOver(w, first, here + 1, limit);
    } else {
      assert FirstOver(w, first, here, limit) == here;
    }
  }

  /** A caption cut at `next`: the loop starts over from there with an empty buffer. */
  lemma CuttingCut(w: seq<Word>, limit: real, first: nat, next: nat, start: real, results: seq<seq<Word>>)
    requires first < |w| && Pieces(w, 0, limit) == Concat(results, Pieces(w, first, limit))
    requires NextCut(w, first, limit) == Ok(next)
    ensures Cutting(w, limit, next, next, [], start, results + [w[first..next]])
  {
    PiecesStep(w, first, next, limit);
    ConcatAssoc(results, w[first..next], Pieces(w, next, limit));
  }

  /** At the end of the words, what is left in the buffer is the last caption. */
  lemma CuttingDone(w: seq<Word>, limit: real, first: nat, buffer: seq<Word>, start: real, results: seq<seq<Word>>)
    requires Cutting(w, limit, first, |w|, buffer, start, results)
    ensures Pieces(w, 0, limit) == Ok(if buffer != [] then results + [buffer] else results)
  {
    assert buffer == w[first..];
    PiecesLast(w, first, limit);
    if buffer == [] {
      assert results + [] == results;
    }
  }

  /**
   * The cutting loop of `splitphrase`, with its `here` cursor that the back-up
   * scan rewinds; the buffer's first word moves forward with every caption, which
   * bounds the loop.
   */
  method Cut(w: seq<Word>, limit: real) returns (r: Result<seq<seq<Word>>>)
    ensures r == Pieces(w, 0, limit)
  {
    var results: seq<seq<Word>> := [];
    var here := 0;
    var buffer: seq<Word> := [];
    var start: real := 0.0;
    var duration: real := 0.0;
    ghost var first := 0;
    ConcatNil(Pieces(w, 0, limit));
    while here < |w|
      invariant Cutting(w, limit, first, here, buffer, start, results)
      decreases |w| - first, |w| - here
    {
      var word := w[here];
      CuttingNext(w, limit, first, here, buffer, start, results);
      if buffer == [] {
        buffer := [word];
        start := word.start;
        duration := word.end - word.start;
      } else {
        duration := word.end - start;
        buffer := buffer + [word];
      }
      if duration > limit {
        var cut := CutBuffer(w, first, here, buffer, limit);
        if cut.Err? {
          return Err(cut.reason);
        }
        var (piece, next) := cut.value;
        CuttingCut(w, limit, first, next, start, results);
        results := results + [piece];
        buffer := [];
        here := next;
        first := next;
      } else {
        here := here + 1;
      }
    }
    CuttingDone(w, limit, first, buffer, start, results);
    if buffer != [] {
      results := results + [buffer];
    }
    r := Ok(results);
  }

  /** The conversion loop of `splitphrase`: one phrase record per caption. */
  method MakePhrases(results: seq<seq<Word>>) returns (phrases: seq<Phrase>)
    requires forall k :: 0 <= k < |results| ==> results[k] != []
    ensures phrases == ToPhrases(results)
  {
    phrases := [];
    for k := 0 to |results|
      invariant phrases == ToPhrases(results[..k])
    {
      assert results[..k + 1][..k] == results[..k];
      phrases := phrases + [PhraseOf(results[k])];
    }
    assert results[..|results|] == results;
  }

  /** The printing loop of `splitphrase`: `phrase2text` on every caption, which may raise. */
  method PrintPhrases(phrases: seq<Phrase>) returns (ok: bool)
    ensures ok == TextsOk(PhraseWords(phrases))
  {
    for k := 0 to |phrases|
      invariant forall j :: 0 <= j < k ==> Text(phrases[j].words).Ok?
    {
      var text := PhraseText(phrases[k].words);
      if text.Err? {
        return false;
      }
    }
    ok := true;
  }

  /** `splitphrase`: the cutting loop, then the captions as phrase records, each printed with its text. */
  method SplitPhraseMethod(p: Phrase, limit: real) returns (r: Result<seq<Phrase>>)
    ensures r == SplitPhrase(p, limit)
  {
    var cut := Cut(p.words, limit);
    if cut.Err? {
      return Err(cut.reason);
    }
    PiecesFlatten(p.words, 0, limit);
    var phrases := MakePhrases(cut.value);
    assert PhraseWords(phrases) == cut.value;
    var ok := PrintPhrases(phrases);
    if !ok {
      return Err(EMPTY_TEXT);
    }
    r := Ok(phrases);
  }

  // ---------------------------------------------------------------------------
  // The caption pipeline of main
  // ---------------------------------------------------------------------------

  /** Every word normalised. */
  function NormalizeAll(ws: seq<Word>): (r: seq<Word>)
    ensures |r| == |ws| && forall i :: 0 <= i < |ws| ==> r[i] == NormalizeWord(ws[i])
  {
    seq(|ws|, i requires 0 <= i < |ws| => NormalizeWord(ws[i]))
  }

  /** The phrases of `main`: the words gathered, normalised in place, then grouped at the pauses. */
  method BuildPhrases(stt: Transcript, gap: real) returns (phrases: seq<Phrase>)
    ensures phrases == ToPhrases(Groups(NormalizeAll(GatherWords(stt)), gap))
  {
    var ws := GatherWords(stt);
    var words := new Word[|ws|](i requires 0 <= i < |ws| => ws[i]);
    NormalizeWords(words);
    assert words[..] == NormalizeAll(ws);
    var grouped := GroupPhrases(words[..], gap);
    assert grouped == ToPhrases(Groups(words[..], gap));
    phrases := grouped;
  }

  /** The phrases keep every normalised word once, in order. */
  lemma BuildPhrasesWords(stt: Transcript, gap: real)
    ensures var g := Groups(NormalizeAll(GatherWords(stt)), gap);
      Flatten(PhraseWords(ToPhrases(g))) == NormalizeAll(GatherWords(stt))
  {
    var g := Groups(NormalizeAll(GatherWords(stt)), gap);
    assert PhraseWords(ToPhrases(g)) == g;
    GroupsFlatten(NormalizeAll(GatherWords(stt)), gap);
  }

  /**
   * The rephrasing loop of `main`: each phrase is printed with its text, which may
   * raise, then replaced by the captions `splitphrase` cuts from it.
   */
  function Rephrase(phrases: seq<Phrase>, limit: real): Result<seq<Phrase>> {
    if phrases == [] then Ok([])
    else match Rephrase(phrases[..|phrases| - 1], limit)
      case Err(e) => Err(e)
      case Ok(acc) =>
        var p := phrases[|phrases| - 1];
        if Text(p.words).Err? then Err(EMPTY_TEXT)
        else match SplitPhrase(p, limit)
          case Err(e) => Err(e)
          case Ok(ps) => Ok(acc + ps)
  }

  /** Once the loop has raised on a prefix, the rest of the phrases change nothing. */
  lemma {:induction false} RephraseErrorStays(phrases: seq<Phrase>, i: nat, limit: real)
    requires i <= |phrases| && Rephrase(phrases[..i], limit).Err?
    ensures Rephrase(phrases, limit) == Rephrase(phrases[..i], limit)
    decreases |phrases| - i
  {
    if i < |phrases| {
      var init := phrases[..|phrases| - 1];
      assert init[..i] == phrases[..i];
      RephraseErrorStays(init, i, limit);
    } else {
      assert phrases[..i] == phrases;
    }
  }

  /** The words of two runs of phrases, one after the other. */
  lemma PhraseWordsAppend(a: seq<Phrase>, b: seq<Phrase>)
    ensures PhraseWords(a + b) == PhraseWords(a) + PhraseWords(b)
  {
    var l, r := PhraseWords(a + b), PhraseWords(a) + PhraseWords(b);
    assert |l| == |r|;
    forall k | 0 <= k < |l| ensures l[k] == r[k] {
      if k < |a| { assert (a + b)[k] == a[k]; } else { assert (a + b)[k] == b[k - |a|]; }
    }
  }

  /** One more phrase through the loop, when the loop does not raise. */
  lemma RephraseSnoc(phrases: seq<Phrase>, limit: real)
    requires phrases != [] && Rephrase(phrases, limit).Ok?
    ensures Rephrase(phrases[..|phrases| - 1], limit).Ok?
    ensures SplitPhrase(phrases[|phrases| - 1], limit).Ok?
    ensures Rephrase(phrases, limit).value
      == Rephrase(phrases[..|phrases| - 1], limit).value + SplitPhrase(phrases[|phrases| - 1], limit).value
  {
  }

  /** The captions keep every word of the phrases once, in order. */
  lemma {:induction false} RephraseWords(phrases: seq<Phrase>, limit: real)
    requires Rephrase(phrases, limit).Ok?
    ensures Flatten(PhraseWords(Rephrase(phrases, limit).value)) == Flatten(PhraseWords(phrases))
  {
    if phrases != [] {
      var init := phrases[..|phrases| - 1];
      var p := phrases[|phrases| - 1];
      RephraseSnoc(phrases, limit);
      var acc := Rephrase(init, limit).value;
      var ps := SplitPhrase(p, limit).value;
      calc {
        Flatten(PhraseWords(Rephrase(phrases, limit).value));
        Flatten(PhraseWords(acc + ps));
        { PhraseWordsAppend(acc, ps); FlattenAppend(PhraseWords(acc), PhraseWords(ps)); }
        Flatten(PhraseWords(acc)) + Flatten(PhraseWords(ps));
        { RephraseWords(init, limit); SplitPhraseSpec(p, limit); }
        Flatten(PhraseWords(init)) + p.words;
        { FlattenSnoc(PhraseWords(init), p.words); }
        Flatten(PhraseWords(init) + [p.words]);
        Flatten(PhraseWords(phrases));
      }
    }
  }

  /** The rephrasing loop of `main`. */
  method RephraseMethod(phrases: seq<Phrase>, limit: real) returns (r: Result<seq<Phrase>>)
    ensures r == Rephrase(phrases, limit)
  {
    var rephrase: seq<Phrase> := [];
    for i := 0 to |phrases|
      invariant Rephrase(phrases[..i], limit) == Ok(rephrase)
    {
      assert phrases[..i + 1][..i] == phrases[..i];
      var p := phrases[i];
      var text := PhraseText(p.words);
      if text.Err? {
        RephraseErrorStays(phrases, i + 1, limit);
        return Err(EMPTY_TEXT);
      }
      var pieces := SplitPhraseMethod(p, limit);
      if pieces.Err? {
        RephraseErrorStays(phrases, i + 1, limit);
        return Err(pieces.reason);
      }
      rephrase := rephrase + pieces.value;
    }
    assert phrases[..|phrases|] == phrases;
    r := Ok(rephrase);
  }

  /** What `main` writes to the WebVTT file: the captions, or the exception that stops it. */
  function CaptionsOf(stt: Transcript, gap: real, limit: real): Result<seq<Phrase>> {
    Rephrase(ToPhrases(Groups(NormalizeAll(GatherWords(stt)), gap)), limit)
  }

  /** The captions hold every word of the transcript, normalised, once and in order. */
  lemma CaptionsKeepWords(stt: Transcript, gap: real, limit: real)
    requires CaptionsOf(stt, gap, limit).Ok?
    ensures Flatten(PhraseWords(CaptionsOf(stt, gap, limit).value)) == NormalizeAll(GatherWords(stt))
  {
    RephraseWords(ToPhrases(Groups(NormalizeAll(GatherWords(stt)), gap)), limit);
    BuildPhrasesWords(stt, gap);
  }

  /** `main`, from the transcript to the captions. */
  method MakeCaptions(stt: Transcript, gap: real, limit: real) returns (r: Result<seq<Phrase>>)
    ensures r == CaptionsOf(stt, gap, limit)
  {
    var phrases := BuildPhrases(stt, gap);
    r := RephraseMethod(phrases, limit);
  }
}
