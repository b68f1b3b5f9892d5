/**
 * `capitalizeWords` from src/util/util.js: split the text on single spaces,
 * upper-case the first character of every non-empty word, join with spaces.
 * Case mapping is the ASCII part of `toUpperCase`.
 */
module Words {
  import opened Wrappers
  import opened Strings

  /** `text.split(' ')`: the pieces between single spaces, never an empty list. */
  function Split(s: string): (ws: seq<string>)
    ensures |ws| >= 1
    ensures forall k :: 0 <= k < |ws| ==> ' ' !in ws[k]
  {
    if s == [] then [""]
    else
      var rest := Split(s[1..]);
      if s[0] == ' ' then [""] + rest
      else [[s[0]] + rest[0]] + rest[1..]
  }

  /** `words.join(' ')` for the non-empty lists `Split` produces. */
  function Join(ws: seq<string>): (r: string)
    requires |ws| >= 1
    ensures |ws[0]| <= |r| && r[..|ws[0]|] == ws[0]
    ensures |ws| > 1 ==> |ws[0]| < |r| && r[|ws[0]|] == ' '
  {
    if |ws| == 1 then ws[0] else ws[0] + " " + Join(ws[1..])
  }

  /** The callback of the `map`: empty words unchanged, else the first character upper-cased. */
  function CapitalizeWord(w: string): (r: string)
    ensures |r| == |w|
    ensures ' ' !in w ==> ' ' !in r
  {
    if |w| == 0 then w else [ToUpper(w[0])] + w[1..]
  }

  /** `words.map(CapitalizeWord)`. */
  function CapitalizeAll(ws: seq<string>): (r: seq<string>)
    ensures |r| == |ws|
    ensures forall k :: 0 <= k < |ws| ==> r[k] == CapitalizeWord(ws[k])
  {
    if ws == [] then [] else [CapitalizeWord(ws[0])] + CapitalizeAll(ws[1..])
  }

  /**
   * `capitalizeWords(text)`; `None` stands for `undefined`/`null`. A falsy
   * input (absent or empty) gives the empty string; otherwise the result is
   * the character scan `Capitalized(text, true)`.
   */
  function CapitalizeWords(text: Option<string>): (r: string)
    ensures text.None? || text == Some("") ==> r == ""
    ensures text.Some? ==> r == Capitalized(text.value, true)
  {
    if text.None? || text.value == "" then ""
    else
      CapitalizedBySplit(text.value);
      Join(CapitalizeAll(Split(text.value)))
  }

  /**
   * Reference definition, independent of split/join: walk the characters,
   * upper-casing each one that starts a word (`atStart` says whether the
   * first character does; afterwards a word starts right after a space).
   */
  function Capitalized(s: string, atStart: bool): string
  {
    if s == [] then []
    else [if atStart then ToUpper(s[0]) else s[0]] + Capitalized(s[1..], s[0] == ' ')
  }

  /** Position `i` of `s` starts a word: it is the first position or follows a space. */
  predicate StartsWord(s: string, i: int)
    requires 0 <= i < |s|
  {
    i == 0 || s[i - 1] == ' '
  }

  lemma {:induction false} JoinCons(c: char, w: string, ws: seq<string>)
    ensures Join([[c] + w] + ws) == [c] + Join([w] + ws)
  {
    if ws != [] {
      assert ([[c] + w] + ws)[1..] == ws;
      assert ([w] + ws)[1..] == ws;
    }
  }

  /** Joining the first piece untouched and the rest capitalised scans with `atStart == false`. */
  lemma {:induction false} RestCapitalizedBySplit(s: string)
    ensures Join([Split(s)[0]] + CapitalizeAll(Split(s)[1..])) == Capitalized(s, false)
    decreases |s|, 0
  {
    if s != [] {
      var t := s[1..];
      var ws := Split(t);
      var capped := CapitalizeAll(ws);
      if s[0] == ' ' {
        assert Split(s) == [""] + ws;
        assert Split(s)[1..] == ws;
        assert ([""] + capped)[1..] == capped;
        assert Join([""] + capped) == " " + Join(capped);
        CapitalizedBySplit(t);
        assert Capitalized(s, false) == [' '] + Capitalized(t, true);
      } else {
        var rest := CapitalizeAll(ws[1..]);
        assert Split(s) == [[s[0]] + ws[0]] + ws[1..];
        JoinCons(s[0], ws[0], rest);
        RestCapitalizedBySplit(t);
        assert Capitalized(s, false) == [s[0]] + Capitalized(t, false);
      }
    }
  }

  /** The split/map/join pipeline agrees with the character scan. */
  lemma {:induction false} CapitalizedBySplit(s: string)
    ensures Join(CapitalizeAll(Split(s))) == Capitalized(s, true)
    decreases |s|, 1
  {
    var ws := Split(s);
    assert CapitalizeAll(ws) == [CapitalizeWord(ws[0])] + CapitalizeAll(ws[1..]);
    if s == [] {
    } else if s[0] == ' ' {
      RestCapitalizedBySplit(s);
    } else {
      var t := s[1..];
      var vs := Split(t);
      RestCapitalizedBySplit(t);
      assert ws[0] == [s[0]] + vs[0] && ws[1..] == vs[1..];
      assert CapitalizeWord(ws[0]) == [ToUpper(s[0])] + vs[0];
      JoinCons(ToUpper(s[0]), vs[0], CapitalizeAll(vs[1..]));
    }
  }

  /**
   * The scan keeps the length, and changes exactly the characters that start
   * a word, to their upper-case form; every other character (the tail
   * `word.slice(1)` of each word, and every space) is kept verbatim.
   */
  lemma {:induction false} CapitalizedAt(s: string, atStart: bool, i: int)
    requires 0 <= i < |s|
    ensures |Capitalized(s, atStart)| == |s|
    ensures Capitalized(s, atStart)[i] ==
              if (if i == 0 then atStart else s[i - 1] == ' ') then ToUpper(s[i]) else s[i]
    decreases |s|
  {
    if i > 0 {
      CapitalizedAt(s[1..], s[0] == ' ', i - 1);
    } else if |s| > 1 {
      CapitalizedAt(s[1..], s[0] == ' ', 0);
    }
  }

  /**
   * What `capitalizeWords` does to each character: the length is kept, a
   * space stays a space and nothing else becomes one, a character that
   * starts a word becomes its upper-case form (so it is never a lower-case
   * letter), and every other character is unchanged.
   */
  lemma CapitalizeWordsAt(text: string, i: int)
    requires 0 <= i < |text|
    ensures |CapitalizeWords(Some(text))| == |text|
    ensures CapitalizeWords(Some(text))[i] == ' ' <==> text[i] == ' '
    ensures StartsWord(text, i) ==> CapitalizeWords(Some(text))[i] == ToUpper(text[i])
    ensures StartsWord(text, i) ==> !IsLowerAscii(CapitalizeWords(Some(text))[i])
    ensures !StartsWord(text, i) ==> CapitalizeWords(Some(text))[i] == text[i]
  {
    CapitalizedAt(text, true, i);
  }

  /** A single piece without spaces splits to itself. */
  lemma {:induction false} SplitWord(w: string)
    requires ' ' !in w
    ensures Split(w) == [w]
  {
    if w != [] {
      assert w[0] in w;
      SplitWord(w[1..]);
      assert [w[0]] + w[1..] == w;
    }
  }

  /** Splitting `w + " " + u` for a space-free `w` yields `w` followed by the pieces of `u`. */
  lemma {:induction false} SplitAfterWord(w: string, u: string)
    requires ' ' !in w
    ensures Split(w + " " + u) == [w] + Split(u)
  {
    if w == [] {
      assert w + " " + u == [' '] + u;
    } else {
      var s := w + " " + u;
      assert s[0] == w[0] && s[0] != ' ';
      assert s[1..] == w[1..] + " " + u;
      SplitAfterWord(w[1..], u);
      assert [w[0]] + w[1..] == w;
    }
  }

  /** `split` undoes `join` when no piece contains the separator. */
  lemma {:induction false} SplitJoin(ws: seq<string>)
    requires |ws| >= 1
    requires forall k :: 0 <= k < |ws| ==> ' ' !in ws[k]
    ensures Split(Join(ws)) == ws
  {
    if |ws| == 1 {
      SplitWord(ws[0]);
    } else {
      SplitJoin(ws[1..]);
      SplitAfterWord(ws[0], Join(ws[1..]));
    }
  }

  /**
   * The output has the same words as the input, in the same order and as
   * many of them, each with only its first character capitalised; in
   * particular an empty word (from two adjacent spaces) comes back empty.
   */
  lemma WordsPreserved(text: string)
    ensures Split(CapitalizeWords(Some(text))) == CapitalizeAll(Split(text))
    ensures |Split(CapitalizeWords(Some(text)))| == |Split(text)|
    ensures forall k :: 0 <= k < |Split(text)| && Split(text)[k] == "" ==>
              Split(CapitalizeWords(Some(text)))[k] == ""
  {
    CapitalizedBySplit(text);
    SplitJoin(CapitalizeAll(Split(text)));
  }

  /** Running the scan on its own output changes nothing. */
  lemma {:induction false} CapitalizedIdempotent(s: string, atStart: bool)
    ensures Capitalized(Capitalized(s, atStart), atStart) == Capitalized(s, atStart)
    decreases |s|
  {
    if s != [] {
      var r := Capitalized(s, atStart);
      CapitalizedIdempotent(s[1..], s[0] == ' ');
      assert r[0] == ' ' <==> s[0] == ' ';
      assert r[1..] == Capitalized(s[1..], s[0] == ' ');
    }
  }

  /** `capitalizeWords` is idempotent (over the ASCII case mapping). */
  lemma CapitalizeWordsIdempotent(text: Option<string>)
    ensures CapitalizeWords(Some(CapitalizeWords(text))) == CapitalizeWords(text)
  {
    if text.Some? {
      CapitalizedIdempotent(text.value, true);
    }
  }
}
