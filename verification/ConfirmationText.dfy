/**
 * Wrapping and paginating the application's PDF (src/services/application/confirmation.ts).
 *
 * A font at a size is an arbitrary width function: nothing below assumes anything about it.
 */
module ConfirmationText {

  const A4_WIDTH: real := 595.28
  const A4_HEIGHT: real := 841.89
  const MARGIN: real := 50.0
  const LINE_GAP: real := 4.0
  const TOP: real := A4_HEIGHT - MARGIN

  type Width = string -> real

  // ---- Splitting on runs of spaces ----

  function FirstSpace(s: string): (i: nat)
    ensures i <= |s| && ' ' !in s[..i] && (i < |s| ==> s[i] == ' ')
  {
    if s == "" || s[0] == ' ' then 0 else assert s[1..][..FirstSpace(s[1..])] == s[1..FirstSpace(s[1..]) + 1]; 1 + FirstSpace(s[1..])
  }

  function SkipSpaces(s: string): (r: string)
    ensures |r| <= |s| && (r == "" || r[0] != ' ')
    ensures s != "" && s[0] == ' ' ==> |r| < |s|
  {
    if s == "" || s[0] != ' ' then s else SkipSpaces(s[1..])
  }

  /** `s.split(/ +/)`: a space at either end leaves an empty word there. */
  function Words(s: string): (w: seq<string>)
    ensures |w| >= 1
    decreases |s|
  {
    var i := FirstSpace(s);
    if i == |s| then [s] else [s[..i]] + Words(SkipSpaces(s[i..]))
  }

  function NonSpace(s: string): string {
    if s == "" then "" else (if s[0] == ' ' then "" else [s[0]]) + NonSpace(s[1..])
  }

  function Flat(parts: seq<string>): string {
    if parts == [] then "" else Flat(parts[..|parts| - 1]) + parts[|parts| - 1]
  }

  lemma {:induction false} NonSpaceOfBoth(a: string, b: string)
    ensures NonSpace(a + b) == NonSpace(a) + NonSpace(b)
  {
    if a == "" {
      assert a + b == b;
    } else {
      assert (a + b)[1..] == a[1..] + b;
      NonSpaceOfBoth(a[1..], b);
    }
  }

  lemma {:induction false} FlatOfBoth(a: seq<string>, b: seq<string>)
    ensures Flat(a + b) == Flat(a) + Flat(b)
  {
    if b == [] {
      assert a + b == a;
    } else {
      assert (a + b)[..|a + b| - 1] == a + b[..|b| - 1];
      FlatOfBoth(a, b[..|b| - 1]);
    }
  }

  lemma {:induction false} SkippedSpacesAreSpaces(s: string)
    ensures NonSpace(SkipSpaces(s)) == NonSpace(s)
  {
    if s != "" && s[0] == ' ' {
      SkippedSpacesAreSpaces(s[1..]);
    }
  }

  lemma {:induction false} WordsKeepEverythingButSpaces(s: string)
    ensures NonSpace(Flat(Words(s))) == NonSpace(s)
    decreases |s|
  {
    var i := FirstSpace(s);
    if i == |s| {
      assert Flat([s]) == Flat([]) + s == s;
    } else {
      var rest := SkipSpaces(s[i..]);
      WordsKeepEverythingButSpaces(rest);
      SkippedSpacesAreSpaces(s[i..]);
      FlatOfBoth([s[..i]], Words(rest));
      assert Flat([s[..i]]) == Flat([]) + s[..i] == s[..i];
      NonSpaceOfBoth(s[..i], Flat(Words(rest)));
      NonSpaceOfBoth(s[..i], s[i..]);
      assert s == s[..i] + s[i..];
    }
  }

  predicate InnerNotEmpty(words: seq<string>) {
    forall j :: 0 < j < |words| - 1 ==> words[j] != ""
  }

  /** Only the first and the last word can be empty. */
  lemma {:induction false} InnerWordsAreNotEmpty(s: string)
    ensures InnerNotEmpty(Words(s))
    ensures s != "" && s[0] != ' ' ==> Words(s)[0] != ""
    decreases |s|
  {
    var i := FirstSpace(s);
    if i < |s| {
      InnerWordsAreNotEmpty(SkipSpaces(s[i..]));
    }
  }

  // ---- Wrapping ----

  predicate Fits(width: Width, limit: real, line: string) {
    line == "" || |line| == 1 || width(line) <= limit
  }

  /** `kept` is the text up to the `j`th character of its `p`th word, but for the spaces. */
  predicate UpTo(words: seq<string>, p: nat, j: nat, kept: string)
    requires p < |words| && j <= |words[p]|
  {
    NonSpace(kept) == NonSpace(Flat(words[..p]) + words[p][..j])
  }

  /** `next` begins with `word`, or with its first character where the word is too wide for any line. */
  predicate Opens(width: Width, limit: real, word: string, next: string) {
    word != "" && (word <= next || (width(word) > limit && word[..1] <= next))
  }

  /**
   * Why the last of these lines ends where it does, before `next`: the text continues at the `j`th character
   * of its `p`th word, and that word, or that character of a word too wide for any line, would not have fitted.
   */
  predicate BreakAt(width: Width, limit: real, words: seq<string>, lines: seq<string>, next: string, p: nat, j: nat) {
    && lines != [] && p < |words| && j < |words[p]| && UpTo(words, p, j, Flat(lines))
    && var line, word := lines[|lines| - 1], words[p];
       if j == 0 then width(line + " " + word) > limit && Opens(width, limit, word, next)
       else width(word) > limit && width(line + [word[j]]) > limit && [word[j]] <= next
  }

  ghost predicate BreakForced(width: Width, limit: real, words: seq<string>, lines: seq<string>, next: string) {
    exists p, j :: BreakAt(width, limit, words, lines, next, p, j)
  }

  /** Every line but the first follows a break that was forced. */
  ghost predicate BreaksForced(width: Width, limit: real, words: seq<string>, lines: seq<string>) {
    |lines| < 2 ||
    var front, last := lines[..|lines| - 1], lines[|lines| - 1];
    BreaksForced(width, limit, words, front) && BreakForced(width, limit, words, front, last)
  }

  /** The finished lines and the one being filled: all fit, none is empty, and every break was forced. */
  ghost predicate Filling(width: Width, limit: real, words: seq<string>, lines: seq<string>, line: string) {
    && Fits(width, limit, line)
    && (forall k :: 0 <= k < |lines| ==> lines[k] != "" && Fits(width, limit, lines[k]))
    && BreaksForced(width, limit, words, lines)
    && (lines != [] && line != "" ==> BreakForced(width, limit, words, lines, line))
  }

  lemma LongerStaysForced(width: Width, limit: real, words: seq<string>, lines: seq<string>, line: string, more: string)
    requires line != "" && BreakForced(width, limit, words, lines, line)
    ensures BreakForced(width, limit, words, lines, line + more)
  {
    var p, j :| BreakAt(width, limit, words, lines, line, p, j);
    assert BreakAt(width, limit, words, lines, line + more, p, j);
  }

  lemma {:induction false} FlatPush(lines: seq<string>, line: string)
    ensures Flat(lines + [line]) == Flat(lines) + line
  {
    assert (lines + [line])[..|lines|] == lines;
  }

  /** Where breaking a word begins: all before it is on the lines, and it would not fit after the last of them. */
  predicate WordIsNext(width: Width, limit: real, words: seq<string>, p: nat, lines: seq<string>) {
    && p < |words| && UpTo(words, p, 0, Flat(lines))
    && (lines != [] && words[p] != "" ==> width(lines[|lines| - 1] + " " + words[p]) > limit)
  }

  /** How far breaking has got: the characters so far are on the finished lines and the piece. */
  ghost predicate Breaking(
    width: Width, limit: real, words: seq<string>, p: nat, done: seq<string>, j: nat, lines: seq<string>, piece: string)
    requires p < |words| && j <= |words[p]|
  {
    && Filling(width, limit, words, lines, piece)
    && Flat(lines) + piece == Flat(done) + words[p][..j]
    && if j == 0 then lines == done && piece == "" else piece != ""
  }

  lemma OneMoreCharacter(done: string, word: string, j: nat, kept: string)
    requires j < |word| && kept == done + word[..j]
    ensures kept + [word[j]] == done + word[..j + 1]
  {
    assert word[..j + 1] == word[..j] + [word[j]];
  }

  lemma UpToWithin(words: seq<string>, p: nat, j: nat, done: string)
    requires p < |words| && j <= |words[p]| && UpTo(words, p, 0, done)
    ensures UpTo(words, p, j, done + words[p][..j])
  {
    NonSpaceOfBoth(done, words[p][..j]);
    NonSpaceOfBoth(Flat(words[..p]), words[p][..j]);
    NonSpaceOfBoth(Flat(words[..p]), "");
  }

  lemma PieceEnds(
    width: Width, limit: real, words: seq<string>, p: nat, done: seq<string>, j: nat, lines: seq<string>, piece: string)
    requires WordIsNext(width, limit, words, p, done) && j < |words[p]| && width(words[p]) > limit
    requires Breaking(width, limit, words, p, done, j, lines, piece) && piece != "" && width(piece + [words[p][j]]) > limit
    ensures Filling(width, limit, words, lines + [piece], [words[p][j]]) && Flat(lines + [piece]) == Flat(lines) + piece
  {
    LastLine(width, limit, words, lines, piece);
    UpToWithin(words, p, j, Flat(done));
    assert BreakAt(width, limit, words, lines + [piece], [words[p][j]], p, j);
  }

  lemma PieceBegins(width: Width, limit: real, words: seq<string>, p: nat, lines: seq<string>, first: string)
    requires Filling(width, limit, words, lines, "") && WordIsNext(width, limit, words, p, lines)
    requires words[p] != "" && first == words[p][..1] && width(words[p]) > limit
    ensures Filling(width, limit, words, lines, first)
  {
    if lines != [] {
      assert BreakAt(width, limit, words, lines, first, p, 0);
    }
  }

  /** The character ends the piece and begins the next, or begins the first. */
  lemma BreaksHere(
    width: Width, limit: real, words: seq<string>, p: nat, done: seq<string>, j: nat, lines: seq<string>, piece: string)
    requires WordIsNext(width, limit, words, p, done) && j < |words[p]| && width(words[p]) > limit
    requires Breaking(width, limit, words, p, done, j, lines, piece) && width(piece + [words[p][j]]) > limit
    ensures Breaking(width, limit, words, p, done, j + 1, if piece != "" then lines + [piece] else lines, [words[p][j]])
  {
    var word := words[p];
    OneMoreCharacter(Flat(done), word, j, Flat(lines) + piece);
    if piece != "" {
      PieceEnds(width, limit, words, p, done, j, lines, piece);
    } else {
      assert [word[j]] == word[..1];
      PieceBegins(width, limit, words, p, lines, [word[j]]);
      assert Flat(lines) + "" == Flat(lines);
    }
  }

  /** The character joins the piece. */
  lemma RunsOn(
    width: Width, limit: real, words: seq<string>, p: nat, done: seq<string>, j: nat, lines: seq<string>, piece: string)
    requires WordIsNext(width, limit, words, p, done) && j < |words[p]| && width(words[p]) > limit
    requires Breaking(width, limit, words, p, done, j, lines, piece) && width(piece + [words[p][j]]) <= limit
    ensures Breaking(width, limit, words, p, done, j + 1, lines, piece + [words[p][j]])
  {
    var c := words[p][j];
    OneMoreCharacter(Flat(done), words[p], j, Flat(lines) + piece);
    assert Flat(lines) + (piece + [c]) == Flat(lines) + piece + [c];
    if piece != "" {
      if lines != [] { LongerStaysForced(width, limit, words, lines, piece, [c]); }
    } else {
      assert piece + [c] == [c] == words[p][..1];
      PieceBegins(width, limit, words, p, lines, [c]);
    }
  }

  /** Breaks a word too wide for the page wherever the page ends; `done` are the lines already finished. */
  method BreakWord(width: Width, limit: real, word: string, ghost words: seq<string>, ghost p: nat, done: seq<string>)
    returns (lines: seq<string>, piece: string)
    requires Filling(width, limit, words, done, "") && width(word) > limit
    requires WordIsNext(width, limit, words, p, done) && words[p] == word
    ensures Filling(width, limit, words, lines, piece)
    ensures Flat(lines) + piece == Flat(done) + word
    ensures word != "" ==> piece != ""
    ensures word == "" ==> lines == done && piece == ""
  {
    lines, piece := done, "";
    for j := 0 to |word|
      invariant Breaking(width, limit, words, p, done, j, lines, piece)
    {
      if width(piece + [word[j]]) > limit {
        BreaksHere(width, limit, words, p, done, j, lines, piece);
        if piece != "" { lines := lines + [piece]; }
        piece := [word[j]];
      } else {
        RunsOn(width, limit, words, p, done, j, lines, piece);
        piece := piece + [word[j]];
      }
    }
    assert word[..|word|] == word;
  }

  lemma SpaceThenWord(kept: string, line: string, word: string)
    ensures NonSpace(kept + (line + " " + word)) == NonSpace(kept + line) + NonSpace(word)
  {
    NonSpaceOfBoth(kept + line, " " + word);
    assert kept + (line + " " + word) == (kept + line) + (" " + word);
    assert (" " + word)[1..] == word;
  }

  /** The word joins the line. */
  lemma JoinsLine(width: Width, limit: real, words: seq<string>, lines: seq<string>, line: string, word: string)
    requires Filling(width, limit, words, lines, line) && line != "" && width(line + " " + word) <= limit
    ensures Filling(width, limit, words, lines, line + " " + word)
  {
    if lines != [] { LongerStaysForced(width, limit, words, lines, line, " " + word); }
    assert line + (" " + word) == line + " " + word;
  }

  /** The word starts a line it fits on. */
  lemma StartsLine(width: Width, limit: real, words: seq<string>, p: nat, lines: seq<string>)
    requires Filling(width, limit, words, lines, "") && WordIsNext(width, limit, words, p, lines) && width(words[p]) <= limit
    ensures Filling(width, limit, words, lines, words[p])
  {
    if lines != [] && words[p] != "" {
      assert BreakAt(width, limit, words, lines, words[p], p, 0);
    }
  }

  /** The line being filled is finished. */
  lemma LastLine(width: Width, limit: real, words: seq<string>, lines: seq<string>, line: string)
    requires Filling(width, limit, words, lines, line) && line != ""
    ensures Filling(width, limit, words, lines + [line], "")
    ensures Flat(lines + [line]) == Flat(lines) + line
  {
    FlatPush(lines, line);
    assert (lines + [line])[..|lines|] == lines;
  }

  /** Puts the next word on the line being filled, or ends that line and starts the next with it. */
  method AddWord(width: Width, limit: real, word: string, ghost words: seq<string>, ghost p: nat, done: seq<string>, filling: string)
    returns (lines: seq<string>, line: string)
    requires Filling(width, limit, words, done, filling) && p < |words| && words[p] == word
    requires UpTo(words, p, 0, Flat(done) + filling)
    requires filling == "" ==> done == []
    ensures Filling(width, limit, words, lines, line)
    ensures UpTo(words, p, |word|, Flat(lines) + line)
    ensures lines != [] && line == "" ==> word == "" && filling != ""
  {
    lines, line := done, filling;
    WordJoins(words, p, Flat(done) + filling);
    var attempt := if line == "" then word else line + " " + word;
    if width(attempt) <= limit {
      if line != "" {
        JoinsLine(width, limit, words, lines, line, word);
        SpaceThenWord(Flat(lines), line, word);
      }
      line := attempt;
      return;
    }
    if line != "" {
      LastLine(width, limit, words, lines, line);
      lines := lines + [line];
    }
    assert Flat(lines) == Flat(done) + filling;
    if width(word) <= limit {
      StartsLine(width, limit, words, p, lines);
      line := word;
      return;
    }
    lines, line := BreakWord(width, limit, word, words, p, lines);
  }

  lemma WordJoins(words: seq<string>, p: nat, kept: string)
    requires p < |words| && UpTo(words, p, 0, kept)
    ensures UpTo(words, p, |words[p]|, kept + words[p]) && NonSpace(kept + words[p]) == NonSpace(kept) + NonSpace(words[p])
  {
    UpToWithin(words, p, |words[p]|, kept);
    assert words[p][..|words[p]|] == words[p];
    NonSpaceOfBoth(kept, words[p]);
  }

  lemma OneMoreWord(words: seq<string>, i: nat)
    requires i < |words|
    ensures Flat(words[..i + 1]) == Flat(words[..i]) + words[i]
    ensures Flat(words[..i]) + words[i][..0] == Flat(words[..i]) && words[i][..|words[i]|] == words[i]
  {
    assert words[..i + 1] == words[..i] + [words[i]];
    FlatPush(words[..i], words[i]);
  }

  lemma OnlyTheLastIsEmpty(words: seq<string>, i: nat)
    requires InnerNotEmpty(words) && 0 < i < |words| && words[i] == ""
    ensures i == |words| - 1
  {
  }

  /** Every character but the spaces, in order; every line fits; none is empty but the one of an empty text; every break forced. */
  ghost predicate Wrapped(width: Width, limit: real, clean: string, lines: seq<string>) {
    && |lines| >= 1 && NonSpace(Flat(lines)) == NonSpace(clean)
    && (forall k :: 0 <= k < |lines| ==> Fits(width, limit, lines[k]))
    && (lines == [""] || forall k :: 0 <= k < |lines| ==> lines[k] != "")
    && BreaksForced(width, limit, Words(clean), lines)
  }

  lemma FilledIsWrapped(width: Width, limit: real, clean: string, lines: seq<string>)
    requires Filling(width, limit, Words(clean), lines, "") && NonSpace(Flat(lines)) == NonSpace(clean)
    ensures Wrapped(width, limit, clean, if lines == [] then [""] else lines)
  {
    assert Flat([""]) == Flat([]) + "";
  }

  /**
   * The lines hold every character but the spaces, in order; each fits, is a single character, or
   * is the one empty line of an empty text; and no line ends while the word, or the character of a
   * broken word, at which the text continues would still fit.
   */
  method WrapLines(width: Width, clean: string, limit: real) returns (lines: seq<string>)
    ensures Wrapped(width, limit, clean, lines)
  {
    lines := [];
    var line := "";
    var words := Words(clean);
    InnerWordsAreNotEmpty(clean);
    for i := 0 to |words|
      invariant Filling(width, limit, words, lines, line)
      invariant i == 0 ==> lines == [] && line == ""
      invariant lines != [] && line == "" ==> i == |words|
      invariant NonSpace(Flat(lines) + line) == NonSpace(Flat(words[..i]))
    {
      OneMoreWord(words, i);
      if i > 0 && words[i] == "" { OnlyTheLastIsEmpty(words, i); }
      lines, line := AddWord(width, limit, words[i], words, i, lines, line);
    }
    assert words[..|words|] == words;
    WordsKeepEverythingButSpaces(clean);
    assert Flat(lines) + "" == Flat(lines);
    if line != "" {
      LastLine(width, limit, words, lines, line);
      lines := lines + [line];
    }
    FilledIsWrapped(width, limit, clean, lines);
    if |lines| == 0 {
      lines := lines + [""];
    }
  }

  // ---- Paginating ----

  datatype Drawn = Drawn(page: nat, y: real, line: string)

  /** `d` is drawn next on this page, or at the top of a new one when it would cross the bottom margin. */
  predicate DrawnNext(page: nat, cursor: real, size: real, d: Drawn) {
    if cursor - size < MARGIN then d.page == page + 1 && d.y == TOP - size else d.page == page && d.y == cursor - size
  }

  /** `drawn` shows `lines` one below another, starting from a page and a cursor. */
  ghost predicate LaidOut(page: nat, cursor: real, size: real, lines: seq<string>, drawn: seq<Drawn>) {
    && |drawn| == |lines|
    && (forall k :: 0 <= k < |drawn| ==> drawn[k].line == lines[k])
    && (drawn != [] ==> DrawnNext(page, cursor, size, drawn[0]))
    && forall i, k {:trigger drawn[i], drawn[k]} :: 0 <= i < k < |drawn| && k == i + 1 ==>
         DrawnNext(drawn[i].page, drawn[i].y - LINE_GAP, size, drawn[k])
  }

  lemma LaidOutOneMore(page: nat, cursor: real, size: real, lines: seq<string>, drawn: seq<Drawn>, d: Drawn)
    requires LaidOut(page, cursor, size, lines, drawn)
    requires if drawn == [] then DrawnNext(page, cursor, size, d)
             else DrawnNext(drawn[|drawn| - 1].page, drawn[|drawn| - 1].y - LINE_GAP, size, d)
    ensures LaidOut(page, cursor, size, lines + [d.line], drawn + [d])
  {
  }

  class Writer {
    var page: nat
    var cursor: real
    var drawn: seq<Drawn>

    ghost predicate Valid()
      reads this
    {
      cursor <= TOP
    }

    constructor ()
      ensures Valid() && page == 0 && cursor == TOP && drawn == []
    {
      page, cursor, drawn := 0, TOP, [];
    }

    method Gap(points: real)
      requires Valid() && points >= 0.0
      modifies this`cursor
      ensures Valid() && cursor == old(cursor) - points
    {
      cursor := cursor - points;
    }

    /** Draws each wrapped line once, in order, and leaves the cursor a gap below the last. */
    method Write(width: Width, clean: string, size: real, indent: real) returns (lines: seq<string>)
      requires Valid() && size > 0.0
      modifies this
      ensures Valid() && old(|drawn|) <= |drawn| && drawn[..old(|drawn|)] == old(drawn)
      ensures Wrapped(width, A4_WIDTH - MARGIN * 2.0 - indent, clean, lines)
      ensures LaidOut(old(page), old(cursor), size, lines, drawn[old(|drawn|)..])
      ensures page == drawn[|drawn| - 1].page && cursor == drawn[|drawn| - 1].y - LINE_GAP
    {
      lines := WrapLines(width, clean, A4_WIDTH - MARGIN * 2.0 - indent);
      ghost var added := Draw(lines, size);
      assert drawn[old(|drawn|)..] == added;
    }

    /** The lines one below another, turning the page whenever the next would cross the bottom margin. */
    method Draw(lines: seq<string>, size: real) returns (ghost added: seq<Drawn>)
      requires Valid() && size > 0.0
      modifies this
      ensures Valid() && drawn == old(drawn) + added && LaidOut(old(page), old(cursor), size, lines, added)
      ensures lines != [] ==> page == added[|added| - 1].page && cursor == added[|added| - 1].y - LINE_GAP
    {
      added := [];
      for k := 0 to |lines|
        invariant Valid() && drawn == old(drawn) + added
        invariant LaidOut(old(page), old(cursor), size, lines[..k], added)
        invariant if k == 0 then page == old(page) && cursor == old(cursor)
                  else page == added[k - 1].page && cursor == added[k - 1].y - LINE_GAP
      {
        if cursor - size < MARGIN {
          page := page + 1;
          cursor := TOP;
        }
        cursor := cursor - size;
        ghost var d := Drawn(page, cursor, lines[k]);
        LaidOutOneMore(old(page), old(cursor), size, lines[..k], added, d);
        assert lines[..k + 1] == lines[..k] + [lines[k]];
        added := added + [d];
        drawn := drawn + [Drawn(page, cursor, lines[k])];
        cursor := cursor - LINE_GAP;
      }
      assert lines[..|lines|] == lines;
    }
  }

  /** No line is ever below the bottom margin, exactly when a line of this size fits a page at all. */
  lemma {:induction false} InsideTheMarginsIffSizeFits(page: nat, cursor: real, size: real, lines: seq<string>, drawn: seq<Drawn>)
    requires cursor <= TOP && size > 0.0 && lines != [] && LaidOut(page, cursor, size, lines, drawn)
    ensures (forall k :: 0 <= k < |drawn| ==> drawn[k].y >= MARGIN) <==> size <= TOP - MARGIN
  {
    forall k | 0 <= k < |drawn| ensures size <= TOP - MARGIN ==> drawn[k].y >= MARGIN {
      if k > 0 {
        assert DrawnNext(drawn[k - 1].page, drawn[k - 1].y - LINE_GAP, size, drawn[k]);
      }
    }
    assert DrawnNext(page, cursor, size, drawn[0]);
  }

  /** A later line is on a later page, or lower on the same page by at least its size and the gap. */
  lemma {:induction false} DrawnInReadingOrder(page: nat, cursor: real, size: real, lines: seq<string>, drawn: seq<Drawn>, i: nat, j: nat)
    requires size > 0.0 && LaidOut(page, cursor, size, lines, drawn) && i < j < |drawn|
    ensures drawn[i].page < drawn[j].page || (drawn[i].page == drawn[j].page && drawn[j].y <= drawn[i].y - LINE_GAP - size)
    decreases j - i
  {
    if i + 1 < j {
      DrawnInReadingOrder(page, cursor, size, lines, drawn, i + 1, j);
    }
    assert DrawnNext(drawn[i].page, drawn[i].y - LINE_GAP, size, drawn[i + 1]);
  }
}
