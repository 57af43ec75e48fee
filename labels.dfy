/**
 * The English label of an entry id: `id.replace(/-/g, ' ').replace(/\b\w/g, c => c.toUpperCase())`,
 * the `toEnglish` of the colors module and the inline label of the icons module.
 */
module Labels {

  /** `\w` of a regular expression without the `u` flag: ASCII letters, digits and `_`. */
  predicate IsWordChar(c: char) {
    ('a' <= c <= 'z') || ('A' <= c <= 'Z') || ('0' <= c <= '9') || c == '_'
  }

  /** `toUpperCase` on the characters `\w` can match: only `a`..`z` change. */
  function ToUpper(c: char): (u: char)
    ensures IsWordChar(u) <==> IsWordChar(c)
  {
    if 'a' <= c <= 'z' then (c as int - 32) as char else c
  }

  /** `replace(/-/g, ' ')`. */
  function DashesToSpaces(s: string): (r: string)
    ensures |r| == |s|
  {
    seq(|s|, k requires 0 <= k < |s| => if s[k] == '-' then ' ' else s[k])
  }

  /**
   * `replace(/\b\w/g, up)` as the regular-expression engine runs it: scanning left
   * to right, a word character right after a non-word character (or at the
   * start) is upper-cased. `afterWord` says whether the previous character was a
   * word character.
   */
  function Capitalize(s: string, afterWord: bool): (r: string)
    ensures |r| == |s|
  {
    if s == [] then []
    else [if IsWordChar(s[0]) && !afterWord then ToUpper(s[0]) else s[0]]
         + Capitalize(s[1..], IsWordChar(s[0]))
  }

  /** The English label of an id: one character for each character of the id. */
  function EnglishLabel(id: string): (r: string)
    ensures |r| == |id|
  {
    Capitalize(DashesToSpaces(id), false)
  }

  /** Position `k` of `s` begins a word: a word character not preceded by one. */
  predicate WordStart(s: string, k: nat)
    requires k < |s|
  {
    IsWordChar(s[k]) && (k == 0 || !IsWordChar(s[k - 1]))
  }

  /** The scan upper-cases exactly the characters that begin a word. */
  lemma {:induction false} CapitalizeAt(s: string, afterWord: bool, k: nat)
    requires k < |s|
    ensures |Capitalize(s, afterWord)| == |s|
    ensures Capitalize(s, afterWord)[k] ==
              if IsWordChar(s[k]) && (if k == 0 then !afterWord else !IsWordChar(s[k - 1]))
              then ToUpper(s[k]) else s[k]
  {
    if k > 0 {
      CapitalizeAt(s[1..], IsWordChar(s[0]), k - 1);
      assert s[1..][k - 1] == s[k];
      if k > 1 {
        assert s[1..][k - 2] == s[k - 1];
      }
    } else if |s| > 1 {
      CapitalizeAt(s[1..], IsWordChar(s[0]), 0);
    }
  }

  /**
   * The label, character by character: a dash becomes a space, a character that
   * begins a word of the id is upper-cased, every other character is kept.
   */
  lemma EnglishLabelAt(id: string, k: nat)
    requires k < |id|
    ensures |EnglishLabel(id)| == |id|
    ensures EnglishLabel(id)[k] ==
              if id[k] == '-' then ' ' else if WordStart(id, k) then ToUpper(id[k]) else id[k]
  {
    var d := DashesToSpaces(id);
    CapitalizeAt(d, false, k);
    assert IsWordChar(d[k]) <==> IsWordChar(id[k]);
    if k > 0 {
      assert IsWordChar(d[k - 1]) <==> IsWordChar(id[k - 1]);
    }
  }

  /** A label has the length of its id and contains no dash. */
  lemma EnglishLabelHasNoDash(id: string)
    ensures |EnglishLabel(id)| == |id|
    ensures '-' !in EnglishLabel(id)
  {
    if |id| > 0 {
      EnglishLabelAt(id, 0);
    }
    forall k | 0 <= k < |id| ensures EnglishLabel(id)[k] != '-' {
      EnglishLabelAt(id, k);
    }
  }

  /** Labelling a label changes nothing. */
  lemma EnglishLabelIdempotent(id: string)
    ensures EnglishLabel(EnglishLabel(id)) == EnglishLabel(id)
  {
    var e := EnglishLabel(id);
    EnglishLabelHasNoDash(id);
    EnglishLabelHasNoDash(e);
    forall k | 0 <= k < |e| ensures EnglishLabel(e)[k] == e[k] {
      EnglishLabelAt(id, k);
      EnglishLabelAt(e, k);
      assert IsWordChar(e[k]) <==> IsWordChar(id[k]);
      if k > 0 {
        EnglishLabelAt(id, k - 1);
        assert IsWordChar(e[k - 1]) <==> IsWordChar(id[k - 1]);
      }
    }
  }

  /** The example of the colors module: `dark-red` is labelled `Dark Red`. */
  lemma EnglishLabelExample()
    ensures EnglishLabel("dark-red") == "Dark Red"
  {
    ExampleSpaced();
    ExampleTail();
  }

  /** The dash of the example becomes a space. */
  lemma ExampleSpaced()
    ensures DashesToSpaces("dark-red") == "dark red"
  {
  }

  /** The scan after the example's first letter. */
  lemma ExampleTail()
    ensures Capitalize("ark red", true) == "ark Red"
  {
    ExampleSecondWord();
    assert Capitalize("k red", true) == "k Red";
    assert Capitalize("rk red", true) == "rk Red";
  }

  /** The scan over the example's second word, after the space. */
  lemma ExampleSecondWord()
    ensures Capitalize(" red", true) == " Red"
  {
    assert Capitalize("d", true) == "d";
    assert Capitalize("ed", true) == "ed";
    assert Capitalize("red", false) == "Red";
  }
}
