/** Splitting text on white space, joining it with single blanks, and comparing it. */
module Text {

  /** The characters `str.split()` treats as white space. */
  predicate IsSpace(c: char) {
    var n := c as int;
    0x09 <= n <= 0x0D || 0x1C <= n <= 0x20 || n in {0x85, 0xA0, 0x1680, 0x2028, 0x2029, 0x202F, 0x205F, 0x3000}
    || 0x2000 <= n <= 0x200A
  }

  /** Length of the word the text starts with. */
  function WordLength(s: string): (n: nat)
    ensures n <= |s|
  {
    if s == "" || IsSpace(s[0]) then 0 else 1 + WordLength(s[1..])
  }

  function Split(s: string): seq<string>
    decreases |s|
  {
    if s == "" then []
    else if IsSpace(s[0]) then Split(s[1..])
    else [s[..WordLength(s)]] + Split(s[WordLength(s)..])
  }

  function Join(words: seq<string>): string {
    if words == [] then ""
    else if |words| == 1 then words[0]
    else words[0] + " " + Join(words[1..])
  }

  ghost predicate IsWord(w: string) {
    w != "" && forall i | 0 <= i < |w| :: !IsSpace(w[i])
  }

  lemma {:induction false} WordLengthSpec(s: string)
    ensures forall i | 0 <= i < WordLength(s) :: !IsSpace(s[i])
    ensures WordLength(s) < |s| ==> IsSpace(s[WordLength(s)])
  {
    if s != "" && !IsSpace(s[0]) {
      WordLengthSpec(s[1..]);
    }
  }

  lemma {:induction false} SplitGivesWords(s: string)
    ensures forall i | 0 <= i < |Split(s)| :: IsWord(Split(s)[i])
    decreases |s|
  {
    if s != "" {
      if IsSpace(s[0]) {
        SplitGivesWords(s[1..]);
      } else {
        WordLengthSpec(s);
        SplitGivesWords(s[WordLength(s)..]);
      }
    }
  }

  lemma {:induction false} WordLengthOf(w: string, rest: string)
    requires forall i | 0 <= i < |w| :: !IsSpace(w[i])
    requires rest != "" ==> IsSpace(rest[0])
    ensures WordLength(w + rest) == |w|
  {
    if w != "" {
      assert (w + rest)[1..] == w[1..] + rest;
      WordLengthOf(w[1..], rest);
    } else {
      assert w + rest == rest;
    }
  }

  /** Splitting undoes joining. */
  lemma {:induction false} SplitUndoesJoin(words: seq<string>)
    requires forall i | 0 <= i < |words| :: IsWord(words[i])
    ensures Split(Join(words)) == words
  {
    if words != [] {
      var w := words[0];
      var rest := if |words| == 1 then "" else " " + Join(words[1..]);
      assert Join(words) == w + rest;
      WordLengthOf(w, rest);
      assert (w + rest)[..|w|] == w && (w + rest)[|w|..] == rest;
      if |words| > 1 {
        assert rest[1..] == Join(words[1..]);
        SplitUndoesJoin(words[1..]);
      }
    }
  }

  // ---------------------------------------------------------------------------
  // Order by code point
  // ---------------------------------------------------------------------------

  predicate Below(a: string, b: string) {
    b != "" && (a == "" || a[0] < b[0] || (a[0] == b[0] && Below(a[1..], b[1..])))
  }

  /** The order is lexicographic: a is a proper prefix of b, or has the smaller character where they first part. */
  lemma {:induction false} BelowIsLexicographic(a: string, b: string)
    ensures Below(a, b) <==>
              || (a != b && a <= b)
              || exists i :: 0 <= i < |a| && i < |b| && a[..i] == b[..i] && a[i] < b[i]
  {
    if a != "" && b != "" && a[0] == b[0] {
      var x, y := a[1..], b[1..];
      BelowIsLexicographic(x, y);
      assert a == [a[0]] + x && b == [a[0]] + y;
      if i :| 0 <= i < |x| && i < |y| && x[..i] == y[..i] && x[i] < y[i] {
        assert a[..i + 1] == [a[0]] + x[..i] && b[..i + 1] == [a[0]] + y[..i];
        assert a[i + 1] < b[i + 1];
      }
      if i :| 0 <= i < |a| && i < |b| && a[..i] == b[..i] && a[i] < b[i] {
        assert i > 0 && x[..i - 1] == a[..i][1..] && y[..i - 1] == b[..i][1..];
        assert x[i - 1] < y[i - 1];
      }
    } else if a != "" && b != "" {
      assert a[..0] == b[..0];
      if i :| 0 < i < |a| && i < |b| && a[..i] == b[..i] {
        assert a[0] == a[..i][0] == b[..i][0] == b[0];
      }
    }
  }

  lemma {:induction false} BelowIsTotal(a: string, b: string)
    ensures a == b || Below(a, b) || Below(b, a)
    ensures !(Below(a, b) && Below(b, a)) && !Below(a, a)
  {
    if a != "" && b != "" {
      BelowIsTotal(a[1..], b[1..]);
      BelowIsTotal(a[1..], a[1..]);
      if a[0] == b[0] && a[1..] == b[1..] {
        assert a == [a[0]] + a[1..] && b == [b[0]] + b[1..];
      }
    } else if a != "" {
      BelowIsTotal(a[1..], a[1..]);
    }
  }

  lemma {:induction false} BelowIsTransitive(a: string, b: string, c: string)
    requires Below(a, b) && Below(b, c)
    ensures Below(a, c)
  {
    if a != "" && a[0] == b[0] && b[0] == c[0] {
      BelowIsTransitive(a[1..], b[1..], c[1..]);
    }
  }
}
