/** `str.split(", ")` and `", ".join(...)`: the invoice field of a freight
    row is a list of invoice numbers written with the separator ", ". */
module Separators {

  /** The separator ", " starts at position `i` of `s`. */
  predicate SepAt(s: string, i: int) {
    0 <= i && i + 1 < |s| && s[i] == ',' && s[i + 1] == ' '
  }

  predicate HasSep(s: string) {
    exists i :: 0 <= i < |s| && SepAt(s, i)
  }

  /** Python's `s.split(", ")`: scanning from the left, each occurrence of
      the separator ends one token; the text after the last one is the final
      token. Because ", " cannot overlap itself, deciding position by
      position is the same as searching for the next occurrence. */
  function Split(s: string): (r: seq<string>)
    ensures |r| >= 1
    decreases |s|
  {
    if |s| < 2 then [s]
    else if s[0] == ',' && s[1] == ' ' then [""] + Split(s[2..])
    else
      var rest := Split(s[1..]);
      [[s[0]] + rest[0]] + rest[1..]
  }

  /** Python's `", ".join(ts)`. */
  function Join(ts: seq<string>): string {
    if |ts| == 0 then ""
    else if |ts| == 1 then ts[0]
    else ts[0] + ", " + Join(ts[1..])
  }

  lemma JoinStartsWithHead(ts: seq<string>)
    requires |ts| >= 1
    ensures |ts[0]| <= |Join(ts)| && Join(ts)[..|ts[0]|] == ts[0]
  {
  }

  /** `Join` of a token followed by further tokens. */
  lemma JoinCons(h: string, rest: seq<string>)
    ensures Join([h] + rest) == if |rest| == 0 then h else h + ", " + Join(rest)
  {
    var ts := [h] + rest;
    assert ts[0] == h;
    if |rest| > 0 {
      assert ts[1..] == rest;
    }
  }

  lemma JoinExtendsHead(c: char, h: string, rest: seq<string>)
    ensures Join([[c] + h] + rest) == [c] + Join([h] + rest)
  {
    JoinCons([c] + h, rest);
    JoinCons(h, rest);
    if |rest| > 0 {
      PrependAssoc(c, h, ", " + Join(rest));
    }
  }

  lemma PrependAssoc(c: char, a: string, b: string)
    ensures ([c] + a) + b == [c] + (a + b)
  {
  }

  /** Joining the tokens back with the separator gives the original text. */
  lemma {:induction false} JoinSplit(s: string)
    ensures Join(Split(s)) == s
    decreases |s|
  {
    if |s| < 2 {
    } else if s[0] == ',' && s[1] == ' ' {
      JoinSplit(s[2..]);
      var rest := Split(s[2..]);
      assert Split(s) == [""] + rest;
      JoinCons("", rest);
      assert s == ", " + s[2..];
    } else {
      JoinSplit(s[1..]);
      var rest := Split(s[1..]);
      assert Split(s) == [[s[0]] + rest[0]] + rest[1..];
      assert rest == [rest[0]] + rest[1..];
      JoinExtendsHead(s[0], rest[0], rest[1..]);
      assert s == [s[0]] + s[1..];
    }
  }

  /** No token contains the separator. */
  lemma {:induction false} SplitTokensSepFree(s: string)
    ensures forall k :: 0 <= k < |Split(s)| ==> !HasSep(Split(s)[k])
    decreases |s|
  {
    if |s| < 2 {
      assert Split(s) == [s];
      assert !SepAt(s, 0);
      forall i ensures !SepAt(s, i) { }
    } else if s[0] == ',' && s[1] == ' ' {
      SplitTokensSepFree(s[2..]);
      var rest := Split(s[2..]);
      assert Split(s) == [""] + rest;
      forall k | 0 <= k < |Split(s)| ensures !HasSep(Split(s)[k]) {
        if k > 0 { assert Split(s)[k] == rest[k - 1]; }
      }
    } else {
      SplitTokensSepFree(s[1..]);
      var rest := Split(s[1..]);
      var head := [s[0]] + rest[0];
      JoinSplit(s[1..]);
      JoinStartsWithHead(rest);
      assert Split(s) == [head] + rest[1..];
      assert |head| >= 2 ==> head[1] == s[1];
      forall i ensures !SepAt(head, i) {
        if i > 0 {
          assert SepAt(head, i) <==> SepAt(rest[0], i - 1);
        }
      }
      forall k | 0 <= k < |Split(s)| ensures !HasSep(Split(s)[k]) {
        if k > 0 { assert Split(s)[k] == rest[k]; }
      }
    }
  }

  /** A text yields exactly one token, itself, if and only if it holds no
      separator. */
  lemma {:induction false} SplitSingleton(s: string)
    ensures Split(s) == [s] <==> !HasSep(s)
    decreases |s|
  {
    if !HasSep(s) {
      if |s| >= 2 {
        assert !SepAt(s, 0);
        forall i ensures !SepAt(s[1..], i) { assert !SepAt(s, i + 1); }
        SplitSingleton(s[1..]);
        assert [s[0]] + s[1..] == s;
      }
    } else {
      SplitTokensSepFree(s);
      assert !HasSep(Split(s)[0]);
    }
  }

  /** A token free of the separator, followed by the separator, splits off
      as the first token. */
  lemma {:induction false} SplitAfterToken(a: string, b: string)
    requires !HasSep(a)
    ensures Split(a + ", " + b) == [a] + Split(b)
    decreases |a|
  {
    var s := a + ", " + b;
    if a == [] {
      assert s == ", " + b;
      assert s[2..] == b;
    } else {
      assert !SepAt(a, 0);
      assert !(s[0] == ',' && s[1] == ' ');
      forall i ensures !SepAt(a[1..], i) { assert !SepAt(a, i + 1); }
      assert s[1..] == a[1..] + ", " + b;
      SplitAfterToken(a[1..], b);
      assert [a[0]] + a[1..] == a;
    }
  }
}
