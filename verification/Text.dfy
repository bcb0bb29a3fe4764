/** Strings as the services clean them up: `lower` and `strip`, for ASCII text. */
module Text {

  function LowerChar(c: char): char {
    if 'A' <= c <= 'Z' then (c as int + 32) as char else c
  }

  function Lower(s: string): string {
    seq(|s|, i requires 0 <= i < |s| => LowerChar(s[i]))
  }

  predicate IsSpace(c: char) {
    c == ' ' || '\t' <= c <= '\r' || '\U{1C}' <= c <= '\U{1F}'
  }

  function Strip(s: string): string {
    if s != [] && IsSpace(s[0]) then Strip(s[1..])
    else if s != [] && IsSpace(s[|s| - 1]) then Strip(s[..|s| - 1])
    else s
  }

  // ----- What cleaning up means -----

  /** White space: tab to carriage return, the four separators, and the space itself. */
  predicate IsBlank(c: char) {
    9 <= c as int <= 13 || 28 <= c as int <= 32
  }

  predicate BlankFrom(s: string, from: nat, to: nat)
    requires from <= to <= |s|
  {
    forall i | from <= i < to :: IsBlank(s[i])
  }

  /** The text between the white space around it, itself without any at either end. */
  predicate IsCore(s: string, i: nat, j: nat) {
    && i <= j <= |s| && BlankFrom(s, 0, i) && BlankFrom(s, j, |s|)
    && (i < j ==> !IsBlank(s[i]) && !IsBlank(s[j - 1]))
  }

  lemma CoreWithout(s: string, i: nat, j: nat)
    requires s != [] && i <= j < |s|
    ensures IsBlank(s[0]) && IsCore(s[1..], i, j) ==> IsCore(s, i + 1, j + 1) && s[i + 1..j + 1] == s[1..][i..j]
    ensures IsBlank(s[|s| - 1]) && IsCore(s[..|s| - 1], i, j) ==> IsCore(s, i, j) && s[i..j] == s[..|s| - 1][i..j]
  {
    if IsBlank(s[0]) && IsCore(s[1..], i, j) {
      assert forall k | 0 < k < |s| :: s[k] == s[1..][k - 1];
    }
    if IsBlank(s[|s| - 1]) && IsCore(s[..|s| - 1], i, j) {
      assert forall k | 0 <= k < |s| - 1 :: s[k] == s[..|s| - 1][k];
    }
  }

  lemma BlanksAreSpaces(c: char)
    ensures IsBlank(c) <==> IsSpace(c)
  {
  }

  /** `strip` leaves the core. */
  lemma {:induction false} StripLeavesCore(s: string) returns (i: nat, j: nat)
    ensures IsCore(s, i, j) && Strip(s) == s[i..j]
    decreases |s|
  {
    if s != [] && IsSpace(s[0]) {
      var k, l := StripLeavesCore(s[1..]);
      CoreWithout(s, k, l);
      i, j := k + 1, l + 1;
    } else if s != [] && IsSpace(s[|s| - 1]) {
      i, j := StripLeavesCore(s[..|s| - 1]);
      CoreWithout(s, i, j);
    } else {
      i, j := 0, |s|;
      assert s[i..j] == s;
    }
  }

  lemma CoreIsUnique(s: string, i: nat, j: nat, k: nat, l: nat)
    requires IsCore(s, i, j) && IsCore(s, k, l) && i < j
    ensures i == k && j == l
  {
  }

  /** The same letter, in either case. */
  predicate SameLetter(c: char, lower: char) {
    c == lower || ('a' <= lower <= 'z' && c as int == lower as int - 32)
  }

  predicate SameWord(word: string, lower: string) {
    |word| == |lower| && forall i | 0 <= i < |word| :: SameLetter(word[i], lower[i])
  }

  /** The text is the word, in any letter case, with any white space around it. */
  predicate Spells(text: string, lower: string) {
    exists i: nat, j: nat | i <= j <= |text| :: IsCore(text, i, j) && SameWord(text[i..j], lower)
  }

  predicate IsLowerWord(name: string) {
    name != [] && forall i | 0 <= i < |name| :: 'a' <= name[i] <= 'z'
  }

  lemma LowerIsSameWord(word: string, name: string)
    requires IsLowerWord(name)
    ensures Lower(word) == name <==> SameWord(word, name)
  {
    if SameWord(word, name) {
      assert Lower(word) == name;
    }
    if Lower(word) == name {
      forall i | 0 <= i < |word|
        ensures SameLetter(word[i], name[i])
      {
        assert LowerChar(word[i]) == name[i];
      }
    }
  }

  /** Stripping and lowering a text gives a word exactly when the text spells it. */
  lemma CleanedUpExactly(text: string, name: string)
    requires IsLowerWord(name)
    ensures Lower(Strip(text)) == name <==> Spells(text, name)
  {
    var k, l := StripLeavesCore(text);
    LowerIsSameWord(text[k..l], name);
    if Spells(text, name) {
      var i: nat, j: nat :| i <= j <= |text| && IsCore(text, i, j) && SameWord(text[i..j], name);
      CoreIsUnique(text, i, j, k, l);
    }
  }

  /** The word is what is left of the text without the white space around it. */
  predicate IsStripped(word: string, text: string) {
    exists i: nat, j: nat | i <= j <= |text| :: IsCore(text, i, j) && word == text[i..j]
  }

  lemma StripExactly(text: string, word: string)
    ensures word == Strip(text) <==> IsStripped(word, text)
  {
    var k, l := StripLeavesCore(text);
    if IsStripped(word, text) {
      var i: nat, j: nat :| i <= j <= |text| && IsCore(text, i, j) && word == text[i..j];
      if i < j {
        CoreIsUnique(text, i, j, k, l);
      } else if k < l {
        CoreIsUnique(text, k, l, i, j);
      }
    }
  }
}
