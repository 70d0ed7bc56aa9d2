/** The Python string operations the backend relies on: `str.lower`,
    `str.strip`, `str.capitalize`, `in` on strings, `re.split` on a
    character class, `str.replace`, `str(int)`, `str.zfill` and `int(str)`.
    Case mapping is ASCII only. */
module Text {
  import opened Base

  // ---------------------------------------------------------------- case

  function LowerChar(c: char): char
  {
    if 'A' <= c <= 'Z' then (c as int + 32) as char else c
  }

  function UpperChar(c: char): char
  {
    if 'a' <= c <= 'z' then (c as int - 32) as char else c
  }

  /** `str.lower()` on ASCII letters. */
  function Lower(s: string): (r: string)
    ensures |r| == |s|
    ensures forall i :: 0 <= i < |s| ==> r[i] == LowerChar(s[i])
    ensures forall i :: 0 <= i < |s| ==> !('A' <= r[i] <= 'Z')
  {
    seq(|s|, i requires 0 <= i < |s| => LowerChar(s[i]))
  }

  lemma LowerIdempotent(s: string)
    ensures Lower(Lower(s)) == Lower(s)
  {
  }

  /** `str.capitalize()`: the same letters ignoring case, the first one not
      in lower case and none of the others in upper case. */
  function Capitalize(s: string): (r: string)
    ensures |r| == |s|
    ensures Lower(r) == Lower(s)
    ensures s != [] ==> !('a' <= r[0] <= 'z')
    ensures forall i :: 1 <= i < |r| ==> !('A' <= r[i] <= 'Z')
  {
    if s == [] then [] else [UpperChar(s[0])] + Lower(s[1..])
  }

  /** Capitalising a capitalised word changes nothing. */
  lemma CapitalizeIdempotent(s: string)
    ensures Capitalize(Capitalize(s)) == Capitalize(s)
  {
    if s != [] {
      var c := Capitalize(s);
      assert c[1..] == Lower(s[1..]);
      assert Lower(c[1..]) == c[1..];
    }
  }

  // ---------------------------------------------------------------- whitespace

  /** The characters Python's `str.strip()` removes: those `str.isspace()`
      accepts. */
  predicate IsSpace(c: char)
  {
    || 9 <= c as int <= 13 || 28 <= c as int <= 32 || c as int == 0x85 || c as int == 0xA0
    || c as int == 0x1680 || 0x2000 <= c as int <= 0x200A || c as int == 0x2028 || c as int == 0x2029
    || c as int == 0x202F || c as int == 0x205F || c as int == 0x3000
  }

  function StripLeft(s: string): (r: string)
    ensures |r| <= |s| && r == s[|s| - |r|..]
    ensures forall i :: 0 <= i < |s| - |r| ==> IsSpace(s[i])
    ensures r == [] || !IsSpace(r[0])
  {
    if s != [] && IsSpace(s[0]) then StripLeft(s[1..]) else s
  }

  function StripRight(s: string): (r: string)
    ensures |r| <= |s| && r == s[..|r|]
    ensures forall i :: |r| <= i < |s| ==> IsSpace(s[i])
    ensures r == [] || !IsSpace(r[|r| - 1])
  {
    if s != [] && IsSpace(s[|s| - 1]) then StripRight(s[..|s| - 1]) else s
  }

  /** `str.strip()`: the input without leading and trailing whitespace. */
  function Strip(s: string): (r: string)
    ensures r == [] || (!IsSpace(r[0]) && !IsSpace(r[|r| - 1]))
    ensures exists i, j :: 0 <= i <= j <= |s| && r == s[i..j]
  {
    var l := StripLeft(s);
    var r := StripRight(l);
    assert r == s[|s| - |l|..|s| - |l| + |r|];
    r
  }

  lemma {:induction false} StripLeftLower(s: string)
    ensures StripLeft(Lower(s)) == Lower(StripLeft(s))
    decreases |s|
  {
    if s != [] {
      assert IsSpace(Lower(s)[0]) == IsSpace(s[0]);
      assert Lower(s)[1..] == Lower(s[1..]);
      StripLeftLower(s[1..]);
    }
  }

  lemma {:induction false} StripRightLower(s: string)
    ensures StripRight(Lower(s)) == Lower(StripRight(s))
    decreases |s|
  {
    if s != [] {
      assert IsSpace(Lower(s)[|s| - 1]) == IsSpace(s[|s| - 1]);
      assert Lower(s)[..|s| - 1] == Lower(s[..|s| - 1]);
      StripRightLower(s[..|s| - 1]);
    }
  }

  lemma AllSpaceStripsEmpty(s: string)
    requires forall k :: 0 <= k < |s| ==> IsSpace(s[k])
    ensures Strip(s) == []
  {
    assert StripLeft(s) == [];
  }

  lemma StripIdempotent(s: string)
    ensures Strip(Strip(s)) == Strip(s)
  {
    var r := Strip(s);
    assert StripLeft(r) == r;
    assert StripRight(r) == r;
  }

  /** `s.lower().strip()`, the normal form of a transaction type. */
  function LowerStrip(s: string): string
  {
    Strip(Lower(s))
  }

  /** Lowercasing commutes with stripping (whitespace has no case). */
  lemma LowerStripCommute(s: string)
    ensures Lower(Strip(s)) == Strip(Lower(s))
  {
    StripLeftLower(s);
    StripRightLower(StripLeft(s));
  }

  /** Normalising a type a second time changes nothing. */
  lemma LowerStripIdempotent(s: string)
    ensures LowerStrip(LowerStrip(s)) == LowerStrip(s)
  {
    var x := Lower(s);
    LowerStripCommute(x);
    LowerIdempotent(s);
    StripIdempotent(x);
  }

  // ---------------------------------------------------------------- substring

  predicate OccursAt(needle: string, hay: string, i: int)
  {
    0 <= i && i + |needle| <= |hay| && hay[i..i + |needle|] == needle
  }

  /** Python's `needle in hay`. */
  predicate Contains(hay: string, needle: string)
  {
    exists i | 0 <= i <= |hay| - |needle| :: OccursAt(needle, hay, i)
  }

  // ---------------------------------------------------------------- split

  /** `re.split(r"[<seps>]", s)`: the pieces between separator characters,
      empty pieces included. */
  function Split(s: string, isSep: char -> bool): (r: seq<string>)
    ensures |r| >= 1
    decreases |s|
  {
    if s == [] then [""]
    else
      var rest := Split(s[1..], isSep);
      if isSep(s[0]) then [""] + rest
      else [[s[0]] + rest[0]] + rest[1..]
  }

  /** The separator characters of `s`, in order. */
  function SeparatorsOf(s: string, isSep: char -> bool): string
  {
    if s == [] then []
    else (if isSep(s[0]) then [s[0]] else []) + SeparatorsOf(s[1..], isSep)
  }

  /** Puts the separators back between the pieces. */
  function Rejoin(pieces: seq<string>, seps: string): string
    requires |pieces| == |seps| + 1
    decreases |seps|
  {
    if seps == [] then pieces[0]
    else pieces[0] + [seps[0]] + Rejoin(pieces[1..], seps[1..])
  }

  /** Splitting yields one piece more than there are separators. */
  lemma {:induction false} SplitCount(s: string, isSep: char -> bool)
    ensures |Split(s, isSep)| == |SeparatorsOf(s, isSep)| + 1
    decreases |s|
  {
    if s != [] {
      SplitCount(s[1..], isSep);
    }
  }

  /** No piece of a split holds a separator. */
  lemma {:induction false} SplitPiecesClean(s: string, isSep: char -> bool)
    ensures forall i, k :: 0 <= i < |Split(s, isSep)| && 0 <= k < |Split(s, isSep)[i]| ==>
      !isSep(Split(s, isSep)[i][k])
    decreases |s|
  {
    if s != [] {
      SplitPiecesClean(s[1..], isSep);
      var rest := Split(s[1..], isSep);
      var r := Split(s, isSep);
      if !isSep(s[0]) {
        forall i, k | 0 <= i < |r| && 0 <= k < |r[i]| ensures !isSep(r[i][k]) {
          if i == 0 {
            if k > 0 { assert r[0][k] == rest[0][k - 1]; }
          } else {
            assert r[i] == rest[i];
          }
        }
      }
    }
  }

  /** Putting the separators back between the pieces gives the input. */
  lemma {:induction false} SplitRejoin(s: string, isSep: char -> bool)
    ensures |Split(s, isSep)| == |SeparatorsOf(s, isSep)| + 1
    ensures Rejoin(Split(s, isSep), SeparatorsOf(s, isSep)) == s
    decreases |s|
  {
    SplitCount(s, isSep);
    if s != [] {
      var rest := Split(s[1..], isSep);
      var seps := SeparatorsOf(s[1..], isSep);
      SplitRejoin(s[1..], isSep);
      var r := Split(s, isSep);
      if isSep(s[0]) {
        assert r == [""] + rest;
        assert SeparatorsOf(s, isSep) == [s[0]] + seps;
        assert r[1..] == rest;
        assert Rejoin(r, [s[0]] + seps) == "" + [s[0]] + Rejoin(rest, seps);
        assert s == [s[0]] + s[1..];
      } else {
        assert r == [[s[0]] + rest[0]] + rest[1..];
        assert SeparatorsOf(s, isSep) == seps;
        if seps == [] {
          assert s == [s[0]] + s[1..];
        } else {
          assert r[1..] == rest[1..];
          assert Rejoin(r, seps) == [s[0]] + (rest[0] + [seps[0]] + Rejoin(rest[1..], seps[1..]));
          assert s == [s[0]] + s[1..];
        }
      }
    }
  }

  /** A string without separators is one piece. */
  lemma {:induction false} SplitNoSeparator(s: string, isSep: char -> bool)
    requires forall k :: 0 <= k < |s| ==> !isSep(s[k])
    ensures Split(s, isSep) == [s]
    decreases |s|
  {
    if s != [] {
      SplitNoSeparator(s[1..], isSep);
      assert [s[0]] + s[1..] == s;
    }
  }

  /** A piece without separators, then a separator, then the rest. */
  lemma {:induction false} SplitAtSeparator(a: string, c: char, b: string, isSep: char -> bool)
    requires forall k :: 0 <= k < |a| ==> !isSep(a[k])
    requires isSep(c)
    ensures Split(a + [c] + b, isSep) == [a] + Split(b, isSep)
    decreases |a|
  {
    if a == [] {
      assert a + [c] + b == [c] + b;
      assert ([c] + b)[1..] == b;
    } else {
      SplitAtSeparator(a[1..], c, b, isSep);
      var s := a + [c] + b;
      assert s[0] == a[0] && s[1..] == a[1..] + [c] + b;
      assert [a[0]] + a[1..] == a;
    }
  }

  // ---------------------------------------------------------------- replace

  /** `s.replace(pat, rep)`: every non-overlapping occurrence of `pat`,
      scanning left to right, replaced by `rep`. */
  function ReplaceAll(s: string, pat: string, rep: string): string
    requires pat != []
    decreases |s|
  {
    if |s| < |pat| then s
    else if s[..|pat|] == pat then rep + ReplaceAll(s[|pat|..], pat, rep)
    else [s[0]] + ReplaceAll(s[1..], pat, rep)
  }

  /** Replacing a single character by a string without it leaves none of it. */
  lemma {:induction false} ReplaceCharRemovesIt(s: string, c: char, rep: string)
    requires c !in rep
    ensures c !in ReplaceAll(s, [c], rep)
    decreases |s|
  {
    if |s| >= 1 {
      ReplaceCharRemovesIt(s[1..], c, rep);
    }
  }

  /** A character that is not in `pat` and `rep` neither appears nor disappears. */
  lemma {:induction false} ReplaceKeepsOtherChar(s: string, pat: string, rep: string, c: char)
    requires pat != [] && c !in pat && c !in rep
    ensures c in ReplaceAll(s, pat, rep) <==> c in s
    decreases |s|
  {
    if |s| >= |pat| {
      if s[..|pat|] == pat {
        ReplaceKeepsOtherChar(s[|pat|..], pat, rep, c);
        assert s == pat + s[|pat|..];
      } else {
        ReplaceKeepsOtherChar(s[1..], pat, rep, c);
        assert s == [s[0]] + s[1..];
      }
    }
  }

  /** A first character that does not start `pat` stays first. */
  lemma ReplaceKeepsHead(s: string, pat: string, rep: string)
    requires pat != [] && s != [] && s[0] != pat[0]
    ensures ReplaceAll(s, pat, rep) != [] && ReplaceAll(s, pat, rep)[0] == s[0]
  {
    if |s| >= |pat| { assert s[..|pat|][0] != pat[0]; }
  }

  /** With no occurrence of the pattern's first character there is nothing to replace. */
  lemma {:induction false} ReplaceAbsent(s: string, pat: string, rep: string)
    requires pat != [] && pat[0] !in s
    ensures ReplaceAll(s, pat, rep) == s
    decreases |s|
  {
    if |s| >= |pat| {
      assert s[..|pat|][0] != pat[0];
      ReplaceAbsent(s[1..], pat, rep);
      assert s == [s[0]] + s[1..];
    }
  }

  /** Replacing a single character works piecewise over a concatenation. */
  lemma {:induction false} ReplaceCharAppend(a: string, b: string, c: char, rep: string)
    ensures ReplaceAll(a + b, [c], rep) == ReplaceAll(a, [c], rep) + ReplaceAll(b, [c], rep)
    decreases |a|
  {
    if a == [] {
      assert a + b == b;
    } else {
      var ab := a + b;
      assert ab[..1] == a[..1] && ab[1..] == a[1..] + b;
      ReplaceCharAppend(a[1..], b, c, rep);
    }
  }

  /** Replacing `c` in `a + [c] + b`, where the middle character is the only `c`. */
  lemma ReplaceOneChar(a: string, c: char, b: string, rep: string)
    requires c !in a && c !in b
    ensures ReplaceAll(a + [c] + b, [c], rep) == a + rep + b
  {
    ReplaceCharAppend(a + [c], b, c, rep);
    ReplaceCharAppend(a, [c], c, rep);
    ReplaceAbsent(a, [c], rep);
    ReplaceAbsent(b, [c], rep);
    assert ReplaceAll([c], [c], rep) == rep by {
      assert [c][..1] == [c] && [c][1..] == [];
    }
  }

  // ---------------------------------------------------------------- integers

  function DigitChar(d: int): char
    requires 0 <= d < 10
  {
    ('0' as int + d) as char
  }

  predicate IsDigit(c: char)
  {
    '0' <= c <= '9'
  }

  /** Decimal digits of a natural number, most significant first. */
  function NatToDigits(n: nat): (r: string)
    ensures r != []
    ensures forall k :: 0 <= k < |r| ==> IsDigit(r[k])
  {
    if n < 10 then [DigitChar(n)] else NatToDigits(n / 10) + [DigitChar(n % 10)]
  }

  /** `str(n)` for a Python int. */
  function IntToString(n: int): string
  {
    if n < 0 then "-" + NatToDigits(-n) else NatToDigits(n)
  }

  /** `s.zfill(2)` for the text of a non-negative integer. */
  function ZFill2(s: string): (r: string)
    ensures |r| >= 2
    ensures |s| >= 2 ==> r == s
  {
    if |s| >= 2 then s else seq(2 - |s|, _ => '0') + s
  }

  /** Value of a string of decimal digits. */
  function DigitsValue(s: string): nat
    requires forall k :: 0 <= k < |s| ==> IsDigit(s[k])
  {
    if s == [] then 0
    else
      assert IsDigit(s[|s| - 1]);
      DigitsValue(s[..|s| - 1]) * 10 + (s[|s| - 1] as int - '0' as int)
  }

  predicate AllDigits(s: string)
  {
    forall k :: 0 <= k < |s| ==> IsDigit(s[k])
  }

  /** An optional sign followed by at least one decimal digit. */
  predicate SignedDigits(t: string)
  {
    t != [] && (AllDigits(t) || ((t[0] == '-' || t[0] == '+') && |t| > 1 && AllDigits(t[1..])))
  }

  /** `int(s)` for decimal text: surrounding whitespace, an optional sign,
      at least one digit. `None` is the ValueError. */
  function ParseInt(s: string): (r: Option<int>)
    ensures r.Some? <==> SignedDigits(Strip(s))
    ensures r.Some? ==>
      var t := Strip(s);
      var ds := if IsDigit(t[0]) then t else t[1..];
      AllDigits(ds) && r.value == (if t[0] == '-' then -(DigitsValue(ds) as int) else DigitsValue(ds))
  {
    var t := Strip(s);
    if t == [] then None
    else if t[0] == '-' || t[0] == '+' then
      var ds := t[1..];
      if ds != [] && AllDigits(ds) then
        var v: int := DigitsValue(ds);
        Some(if t[0] == '-' then -v else v)
      else None
    else if AllDigits(t) then Some(DigitsValue(t))
    else None
  }

  lemma {:induction false} DigitsRoundTrip(n: nat)
    ensures DigitsValue(NatToDigits(n)) == n
  {
    if n >= 10 {
      DigitsRoundTrip(n / 10);
      var s := NatToDigits(n);
      assert s[..|s| - 1] == NatToDigits(n / 10);
    }
  }

  lemma {:induction false} LeadingZerosIgnored(z: nat, s: string)
    requires AllDigits(s)
    ensures AllDigits(seq(z, _ => '0') + s)
    ensures DigitsValue(seq(z, _ => '0') + s) == DigitsValue(s)
    decreases |s|
  {
    var t := seq(z, _ => '0') + s;
    if s == [] {
      assert t == seq(z, _ => '0');
      ZerosValue(z);
    } else {
      var s' := s[..|s| - 1];
      LeadingZerosIgnored(z, s');
      assert t[..|t| - 1] == seq(z, _ => '0') + s';
    }
  }

  lemma {:induction false} ZerosValue(z: nat)
    ensures DigitsValue(seq(z, _ => '0')) == 0
  {
    if z > 0 {
      ZerosValue(z - 1);
      assert seq(z, _ => '0')[..z - 1] == seq(z - 1, _ => '0');
    }
  }

  /** `int(str(n))` gives `n` back for a natural number. */
  lemma ParseIntOfDigits(n: nat)
    ensures ParseInt(NatToDigits(n)) == Some(n)
  {
    var s := NatToDigits(n);
    DigitsRoundTrip(n);
    StripDigits(s);
  }

  /** `int(str(n).zfill(2))` gives `n` back for a natural number. */
  lemma ParseIntOfZFilled(n: nat)
    ensures ParseInt(ZFill2(NatToDigits(n))) == Some(n)
  {
    var s := NatToDigits(n);
    DigitsRoundTrip(n);
    var z := ZFill2(s);
    if |s| < 2 {
      LeadingZerosIgnored(2 - |s|, s);
    }
    assert AllDigits(z) && DigitsValue(z) == n;
    StripDigits(z);
  }

  lemma StripDigits(s: string)
    requires s != [] && AllDigits(s)
    ensures Strip(s) == s
  {
    assert !IsSpace(s[0]);
    assert StripLeft(s) == s;
    assert !IsSpace(s[|s| - 1]);
  }
}
