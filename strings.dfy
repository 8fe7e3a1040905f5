/**
 * The string primitives the PHP core leans on: trim(), explode()/implode(),
 * decimal digits, basename(), pathinfo() extensions, str_replace() and
 * ASCII strtolower().
 */
module Strings {

  /** The characters PHP's trim() removes when no list is given. */
  const Blanks: set<char> := {' ', '\t', '\n', '\r', '\0', '\U{000B}'}

  // ---------------------------------------------------------------------------
  // Trimming

  /** ltrim(s, drop): the longest suffix of s not starting with a dropped character. */
  function TrimLeftBy(s: string, drop: set<char>): (r: string)
    ensures |r| <= |s| && r == s[|s| - |r|..]
    ensures |r| > 0 ==> r[0] !in drop
    ensures forall i :: 0 <= i < |s| - |r| ==> s[i] in drop
    decreases |s|
  {
    if |s| > 0 && s[0] in drop then TrimLeftBy(s[1..], drop) else s
  }

  /** rtrim(s, drop): the longest prefix of s not ending with a dropped character. */
  function TrimRightBy(s: string, drop: set<char>): (r: string)
    ensures |r| <= |s| && r == s[..|r|]
    ensures |r| > 0 ==> r[|r| - 1] !in drop
    ensures forall i :: |r| <= i < |s| ==> s[i] in drop
    decreases |s|
  {
    if |s| > 0 && s[|s| - 1] in drop then TrimRightBy(s[..|s| - 1], drop) else s
  }

  /** trim(s, drop). */
  function TrimChars(s: string, drop: set<char>): string
  {
    TrimRightBy(TrimLeftBy(s, drop), drop)
  }

  /** trim(s) with PHP's default character list. */
  function Trim(s: string): string
  {
    TrimChars(s, Blanks)
  }

  lemma TrimLeftFixed(s: string, drop: set<char>)
    requires |s| == 0 || s[0] !in drop
    ensures TrimLeftBy(s, drop) == s
  {
  }

  lemma TrimRightFixed(s: string, drop: set<char>)
    requires |s| == 0 || s[|s| - 1] !in drop
    ensures TrimRightBy(s, drop) == s
  {
  }

  /** Trimming twice is trimming once. */
  lemma TrimCharsIdempotent(s: string, drop: set<char>)
    ensures TrimChars(TrimChars(s, drop), drop) == TrimChars(s, drop)
  {
    var l := TrimLeftBy(s, drop);
    var t := TrimRightBy(l, drop);
    assert |t| > 0 ==> t[0] == l[0];
    TrimLeftFixed(t, drop);
    TrimRightFixed(t, drop);
  }

  // ---------------------------------------------------------------------------
  // explode() and implode() on one separator character

  /** explode(sep, s): the pieces between separators, at least one. */
  function Split(s: string, sep: char): (parts: seq<string>)
    ensures |parts| >= 1
    ensures forall i :: 0 <= i < |parts| ==> sep !in parts[i]
    decreases |s|
  {
    if |s| == 0 then [""]
    else
      var rest := Split(s[1..], sep);
      if s[0] == sep then [""] + rest
      else [[s[0]] + rest[0]] + rest[1..]
  }

  /** implode(sep, parts). */
  function Join(parts: seq<string>, sep: char): string
    requires |parts| >= 1
    decreases |parts|
  {
    if |parts| == 1 then parts[0] else parts[0] + [sep] + Join(parts[1..], sep)
  }

  /** Joining the pieces of a split gives the original string back. */
  lemma {:induction false} JoinSplit(s: string, sep: char)
    ensures Join(Split(s, sep), sep) == s
    decreases |s|
  {
    if |s| > 0 {
      var rest := Split(s[1..], sep);
      JoinSplit(s[1..], sep);
      if s[0] == sep {
        assert Split(s, sep) == [""] + rest;
        assert ([""] + rest)[1..] == rest;
        assert s == [sep] + s[1..];
      } else {
        var parts := Split(s, sep);
        assert parts == [[s[0]] + rest[0]] + rest[1..];
        if |rest| == 1 {
          assert s == [s[0]] + s[1..];
        } else {
          assert parts[1..] == rest[1..];
          assert Join(rest, sep) == rest[0] + [sep] + Join(rest[1..], sep);
          assert s == [s[0]] + s[1..];
        }
      }
    }
  }

  lemma {:induction false} SplitPrefix(a: string, t: string, sep: char)
    requires sep !in a
    ensures Split(a + t, sep) == [a + Split(t, sep)[0]] + Split(t, sep)[1..]
    decreases |a|
  {
    if |a| > 0 {
      var st := Split(t, sep);
      assert (a + t)[1..] == a[1..] + t;
      assert (a + t)[0] == a[0] && a[0] != sep;
      SplitPrefix(a[1..], t, sep);
      var rest := Split(a[1..] + t, sep);
      assert rest == [a[1..] + st[0]] + st[1..];
      assert rest[0] == a[1..] + st[0] && rest[1..] == st[1..];
      assert Split(a + t, sep) == [[a[0]] + rest[0]] + rest[1..];
      assert [a[0]] + (a[1..] + st[0]) == a + st[0];
    } else {
      var st := Split(t, sep);
      assert a + t == t;
      assert a + st[0] == st[0];
      assert st == [st[0]] + st[1..];
    }
  }

  /** Splitting a join of separator-free pieces gives the pieces back. */
  lemma {:induction false} SplitJoin(parts: seq<string>, sep: char)
    requires |parts| >= 1
    requires forall i :: 0 <= i < |parts| ==> sep !in parts[i]
    ensures Split(Join(parts, sep), sep) == parts
    decreases |parts|
  {
    if |parts| == 1 {
      SplitPrefix(parts[0], "", sep);
      assert parts[0] + "" == parts[0];
    } else {
      var tail := Join(parts[1..], sep);
      SplitJoin(parts[1..], sep);
      assert Join(parts, sep) == parts[0] + ([sep] + tail);
      SplitPrefix(parts[0], [sep] + tail, sep);
      assert ([sep] + tail)[1..] == tail;
      assert Split([sep] + tail, sep) == [""] + parts[1..];
      assert parts[0] + "" == parts[0];
      assert parts == [parts[0]] + parts[1..];
    }
  }

  /** implode of three pieces. */
  lemma JoinThree(a: string, b: string, c: string, sep: char)
    ensures Join([a, b, c], sep) == a + [sep] + b + [sep] + c
  {
    assert [a, b, c][1..] == [b, c] && [b, c][1..] == [c];
    assert Join([b, c], sep) == b + [sep] + c;
    assert Join([a, b, c], sep) == a + [sep] + (b + [sep] + c);
  }

  /** explode(sep, s, 2) when sep occurs: the text before the first sep and the rest. */
  function SplitAtFirst(s: string, sep: char): (r: (string, string))
    requires sep in s
    ensures s == r.0 + [sep] + r.1
    ensures sep !in r.0
    decreases |s|
  {
    if s[0] == sep then ("", s[1..])
    else
      assert sep in s[1..] by {
        var k :| 0 <= k < |s| && s[k] == sep;
        assert s[1..][k - 1] == sep;
      }
      var p := SplitAtFirst(s[1..], sep);
      assert s == [s[0]] + s[1..];
      ([s[0]] + p.0, p.1)
  }

  // ---------------------------------------------------------------------------
  // Decimal digits

  predicate IsDigit(c: char) { '0' <= c <= '9' }

  predicate AllDigits(s: string) { forall i :: 0 <= i < |s| ==> IsDigit(s[i]) }

  function DigitValue(c: char): nat
    requires IsDigit(c)
  {
    c as int - '0' as int
  }

  function DigitChar(d: nat): (c: char)
    requires d < 10
    ensures IsDigit(c) && DigitValue(c) == d
  {
    ('0' as int + d) as char
  }

  function Pow10(k: nat): (p: nat)
    ensures p >= 1
  {
    if k == 0 then 1 else 10 * Pow10(k - 1)
  }

  /** The decimal digits of n, without leading zeros. */
  function NatToString(n: nat): (r: string)
    ensures |r| >= 1 && AllDigits(r)
    ensures |r| > 1 ==> r[0] != '0'
  {
    if n < 10 then [DigitChar(n)] else NatToString(n / 10) + [DigitChar(n % 10)]
  }

  /** The (string) cast of an integer. */
  function IntToString(i: int): string
  {
    if i < 0 then "-" + NatToString(-i) else NatToString(i)
  }

  /** The number a string of digits denotes. */
  function DigitsValue(ds: string): nat
    requires AllDigits(ds)
    decreases |ds|
  {
    if |ds| == 0 then 0 else DigitsValue(ds[..|ds| - 1]) * 10 + DigitValue(ds[|ds| - 1])
  }

  /** Reading back the digits of n gives n. */
  lemma {:induction false} DigitsOfNat(n: nat)
    ensures DigitsValue(NatToString(n)) == n
  {
    if n >= 10 {
      var r := NatToString(n);
      DigitsOfNat(n / 10);
      assert r[..|r| - 1] == NatToString(n / 10);
    }
  }

  /** Leading zeros do not change the value of a digit string. */
  lemma {:induction false} LeadingZeros(z: string, ds: string)
    requires forall i :: 0 <= i < |z| ==> z[i] == '0'
    requires AllDigits(ds)
    ensures AllDigits(z + ds) && DigitsValue(z + ds) == DigitsValue(ds)
    decreases |ds|, |z|
  {
    if |ds| == 0 {
      assert z + ds == z;
      if |z| > 0 {
        assert z[..|z| - 1] + "" == z[..|z| - 1];
        LeadingZeros(z[..|z| - 1], "");
      }
    } else {
      var front := ds[..|ds| - 1];
      assert (z + ds)[..|z + ds| - 1] == z + front;
      LeadingZeros(z, front);
    }
  }

  /** r is ds with '0's in front. */
  predicate ZeroPadded(r: string, ds: string)
  {
    |ds| <= |r| && r[|r| - |ds|..] == ds && forall i :: 0 <= i < |r| - |ds| ==> r[i] == '0'
  }

  /** Zeros in front of a run of digits do not change its value. */
  lemma ZeroPaddedValue(r: string, ds: string)
    requires ZeroPadded(r, ds) && AllDigits(ds)
    ensures AllDigits(r) && DigitsValue(r) == DigitsValue(ds)
  {
    var z := r[..|r| - |ds|];
    assert r == z + ds;
    LeadingZeros(z, ds);
  }

  /** A number below 10^k has at most k digits. */
  lemma {:induction false} NatToStringLength(n: nat, k: nat)
    requires k >= 1 && n < Pow10(k)
    ensures |NatToString(n)| <= k
  {
    if n >= 10 {
      NatToStringLength(n / 10, k - 1);
    }
  }

  /** The longest prefix of s made of digits. */
  function DigitPrefix(s: string): (r: string)
    ensures AllDigits(r) && r <= s
    ensures |r| < |s| ==> !IsDigit(s[|r|])
  {
    if |s| > 0 && IsDigit(s[0]) then [s[0]] + DigitPrefix(s[1..]) else ""
  }

  lemma {:induction false} DigitPrefixOfDigits(s: string)
    requires AllDigits(s)
    ensures DigitPrefix(s) == s
  {
    if |s| > 0 {
      DigitPrefixOfDigits(s[1..]);
      assert s == [s[0]] + s[1..];
    }
  }

  /** str_pad(s, width, fill, STR_PAD_LEFT): never shortens s. */
  function LeftPad(s: string, width: nat, fill: char): (r: string)
    ensures |r| == if |s| >= width then |s| else width
    ensures r[|r| - |s|..] == s
    ensures forall i :: 0 <= i < |r| - |s| ==> r[i] == fill
  {
    if |s| >= width then s else seq(width - |s|, _ => fill) + s
  }

  // ---------------------------------------------------------------------------
  // Paths and case

  /** basename(path): the last '/'-separated component, trailing slashes ignored. */
  function Basename(path: string): (r: string)
    ensures '/' !in r
  {
    var parts := Split(TrimRightBy(path, {'/'}), '/');
    parts[|parts| - 1]
  }

  /** The basename of a path ending in a slash-free name is that name. */
  lemma {:induction false} BasenameOfName(dir: string, name: string)
    requires |name| > 0 && '/' !in name
    ensures Basename(dir + "/" + name) == name
  {
    var p := dir + "/" + name;
    TrimRightFixed(p, {'/'});
    var parts := Split(dir, '/');
    JoinSplit(dir, '/');
    var all := parts + [name];
    assert Join(all, '/') == p by {
      JoinAppend(parts, name, '/');
    }
    forall i | 0 <= i < |all| ensures '/' !in all[i] {
      if i == |all| - 1 { assert all[i] == name; } else { assert all[i] == parts[i]; }
    }
    SplitJoin(all, '/');
  }

  lemma {:induction false} JoinAppend(parts: seq<string>, last: string, sep: char)
    requires |parts| >= 1
    ensures Join(parts + [last], sep) == Join(parts, sep) + [sep] + last
    decreases |parts|
  {
    if |parts| == 1 {
      assert (parts + [last])[1..] == [last];
    } else {
      assert (parts + [last])[1..] == parts[1..] + [last];
      JoinAppend(parts[1..], last, sep);
    }
  }

  /** The extension pathinfo() reports: what follows the last '.' of the basename. */
  function Extension(path: string): (r: string)
    ensures '.' !in r && '/' !in r
  {
    var base := Basename(path);
    if '.' in base then
      var parts := Split(base, '.');
      assert forall i :: 0 <= i < |parts| ==> '/' !in parts[i] by {
        SplitKeepsOut(base, '.', '/');
      }
      parts[|parts| - 1]
    else ""
  }

  /** The extension of stem.ext, for a stem and extension free of '.' and '/', is ext. */
  lemma ExtensionOfName(stem: string, ext: string)
    requires '/' !in stem && '.' !in stem && '/' !in ext && '.' !in ext && |ext| > 0
    ensures Extension(stem + "." + ext) == ext
  {
    var name := stem + "." + ext;
    assert name[|name| - 1] == ext[|ext| - 1];
    TrimRightFixed(name, {'/'});
    SplitJoin([name], '/');
    assert Basename(name) == name;
    assert Join([stem, ext], '.') == name;
    SplitJoin([stem, ext], '.');
    assert name[|stem|] == '.';
  }

  lemma {:induction false} SplitKeepsOut(s: string, sep: char, c: char)
    requires c !in s
    ensures forall i :: 0 <= i < |Split(s, sep)| ==> c !in Split(s, sep)[i]
    decreases |s|
  {
    if |s| > 0 {
      SplitKeepsOut(s[1..], sep, c);
    }
  }

  predicate IsUpperAscii(c: char) { 'A' <= c <= 'Z' }

  function LowerChar(c: char): (d: char)
    ensures !IsUpperAscii(d)
  {
    if IsUpperAscii(c) then (c as int + 32) as char else c
  }

  /** strtolower() on ASCII letters. */
  function ToLower(s: string): (r: string)
    ensures |r| == |s|
    ensures forall i :: 0 <= i < |s| ==> r[i] == LowerChar(s[i])
  {
    seq(|s|, i requires 0 <= i < |s| => LowerChar(s[i]))
  }

  lemma ToLowerIdempotent(s: string)
    ensures ToLower(ToLower(s)) == ToLower(s)
  {
  }

  // ---------------------------------------------------------------------------
  // str_replace()

  predicate Contains(s: string, pat: string)
  {
    exists i :: 0 <= i <= |s| && pat <= s[i..]
  }

  /** str_replace(pat, rep, s): every occurrence, scanning left to right. */
  function ReplaceAll(s: string, pat: string, rep: string): string
    requires |pat| > 0
    decreases |s|
  {
    if pat <= s then rep + ReplaceAll(s[|pat|..], pat, rep)
    else if |s| == 0 then ""
    else [s[0]] + ReplaceAll(s[1..], pat, rep)
  }

  /** A string without the pattern is left as it is. */
  lemma {:induction false} ReplaceAbsent(s: string, pat: string, rep: string)
    requires |pat| > 0 && !Contains(s, pat)
    ensures ReplaceAll(s, pat, rep) == s
    decreases |s|
  {
    assert s[0..] == s;
    if |s| > 0 {
      forall i | 0 <= i <= |s[1..]|
        ensures !(pat <= s[1..][i..])
      {
        assert s[1..][i..] == s[i + 1..];
      }
      ReplaceAbsent(s[1..], pat, rep);
      assert s == [s[0]] + s[1..];
    }
  }
}
