/**
 The JavaScript string operations the core relies on: `split('\n')`, `trim()`,
 `toLowerCase()`, `includes(...)`, the `\d` and `\s` regular-expression classes,
 and number-to-decimal-string conversion in template literals.
 */
module Text {

  /** The characters `trim()` removes and `\s` matches: ECMAScript WhiteSpace and LineTerminator. */
  predicate IsSpace(c: char) {
    c == '\t' || c == '\n' || c == '\U{000B}' || c == '\U{000C}' || c == '\r' || c == ' ' ||
    c == '\U{00A0}' || c == '\U{1680}' || ('\U{2000}' <= c <= '\U{200A}') ||
    c == '\U{2028}' || c == '\U{2029}' || c == '\U{202F}' || c == '\U{205F}' ||
    c == '\U{3000}' || c == '\U{FEFF}'
  }

  /** The regular-expression class `\d`: ASCII digits only. */
  predicate IsDigit(c: char) {
    '0' <= c <= '9'
  }

  predicate AllDigits(s: string) {
    forall i :: 0 <= i < |s| ==> IsDigit(s[i])
  }

  function LowerChar(c: char): char {
    if 'A' <= c <= 'Z' then (c as int + 32) as char else c
  }

  /** Lower-casing, restricted to the ASCII letters. */
  function ToLower(s: string): (r: string)
    ensures |r| == |s|
  {
    if s == [] then [] else [LowerChar(s[0])] + ToLower(s[1..])
  }

  /** `s.startsWith(prefix)`, compared character by character. */
  predicate StartsWith(s: string, prefix: string) {
    prefix == [] || (s != [] && s[0] == prefix[0] && StartsWith(s[1..], prefix[1..]))
  }

  /** `s.includes(sub)`: `sub` starts at some position of `s`. */
  predicate Contains(s: string, sub: string)
    decreases |s|
  {
    StartsWith(s, sub) || (s != [] && Contains(s[1..], sub))
  }

  /** `trimStart()`: drops the leading run of whitespace and nothing else. */
  function TrimStart(s: string): (r: string)
    ensures |r| <= |s| && r == s[|s| - |r|..]
    ensures forall i :: 0 <= i < |s| - |r| ==> IsSpace(s[i])
    ensures r == [] || !IsSpace(r[0])
  {
    if s != [] && IsSpace(s[0]) then TrimStart(s[1..]) else s
  }

  /** `trimEnd()`: drops the trailing run of whitespace and nothing else. */
  function TrimEnd(s: string): (r: string)
    ensures |r| <= |s| && r == s[..|r|]
    ensures forall i :: |r| <= i < |s| ==> IsSpace(s[i])
    ensures r == [] || !IsSpace(r[|r| - 1])
  {
    if s != [] && IsSpace(s[|s| - 1]) then TrimEnd(s[..|s| - 1]) else s
  }

  /** `trim()`: the infix of `s` left after removing whitespace at both ends. */
  function Trim(s: string): (r: string)
    ensures r == [] || (!IsSpace(r[0]) && !IsSpace(r[|r| - 1]))
    ensures var k := |s| - |TrimStart(s)|;
      && k + |r| <= |s|
      && r == s[k..k + |r|]
      && (forall i :: 0 <= i < k ==> IsSpace(s[i]))
      && (forall i :: k + |r| <= i < |s| ==> IsSpace(s[i]))
  {
    TrimEnd(TrimStart(s))
  }

  /** `s.split('\n')`: always at least one piece; the empty string gives `[""]`. */
  function Lines(s: string): (r: seq<string>)
    ensures |r| >= 1
  {
    if s == [] then [""]
    else
      var rest := Lines(s[1..]);
      if s[0] == '\n' then [""] + rest else [[s[0]] + rest[0]] + rest[1..]
  }

  /** `lines.join('\n')`. */
  function Join(lines: seq<string>): string {
    if lines == [] then ""
    else if |lines| == 1 then lines[0]
    else lines[0] + "\n" + Join(lines[1..])
  }

  /** The decimal form `${n}` of a natural number. */
  function DecimalString(n: nat): (r: string)
    ensures r != [] && AllDigits(r)
  {
    if n < 10 then [('0' as int + n) as char]
    else DecimalString(n / 10) + [('0' as int + n % 10) as char]
  }

  /** The number a string of decimal digits denotes. */
  function DigitsValue(s: string): nat
    requires AllDigits(s)
  {
    if s == [] then 0
    else DigitsValue(s[..|s| - 1]) * 10 + (s[|s| - 1] as int - '0' as int)
  }

  // ---------------------------------------------------------------------------
  // Lemmas

  /** Joining a list of two or more pieces puts a separator after the first. */
  lemma JoinCons(first: string, rest: seq<string>)
    requires rest != []
    ensures Join([first] + rest) == first + "\n" + Join(rest)
  {
    assert ([first] + rest)[1..] == rest;
  }

  /** Splitting then joining with the same separator gives back the text. */
  lemma {:induction false} JoinLines(s: string)
    ensures Join(Lines(s)) == s
  {
    if s != [] {
      JoinLines(s[1..]);
      if s[0] == '\n' {
        JoinLinesAtBreak(s);
      } else {
        JoinLinesInLine(s);
      }
    }
  }

  /** The step of `JoinLines` for a text that starts with a separator. */
  lemma JoinLinesAtBreak(s: string)
    requires s != [] && s[0] == '\n'
    requires Join(Lines(s[1..])) == s[1..]
    ensures Join(Lines(s)) == s
  {
    var rest := Lines(s[1..]);
    assert Lines(s) == [""] + rest;
    JoinCons("", rest);
    assert s == "\n" + s[1..];
  }

  /** The step of `JoinLines` for a text that starts inside a line. */
  lemma JoinLinesInLine(s: string)
    requires s != [] && s[0] != '\n'
    requires Join(Lines(s[1..])) == s[1..]
    ensures Join(Lines(s)) == s
  {
    var rest := Lines(s[1..]);
    assert Lines(s) == [[s[0]] + rest[0]] + rest[1..];
    JoinPrepend([s[0]], rest);
    assert s == [s[0]] + s[1..];
  }

  /** Extending the first piece extends the joined text by the same prefix. */
  lemma JoinPrepend(prefix: string, lines: seq<string>)
    requires lines != []
    ensures Join([prefix + lines[0]] + lines[1..]) == prefix + Join(lines)
  {
    var tail := lines[1..];
    if tail == [] {
      assert [prefix + lines[0]] + tail == [prefix + lines[0]];
    } else {
      assert lines == [lines[0]] + tail;
      JoinCons(lines[0], tail);
      JoinCons(prefix + lines[0], tail);
    }
  }

  /** No piece of a split contains the separator. */
  lemma {:induction false} LinesHaveNoNewline(s: string)
    ensures forall j :: 0 <= j < |Lines(s)| ==> '\n' !in Lines(s)[j]
  {
    if s != [] {
      LinesHaveNoNewline(s[1..]);
    }
  }

  /** Joining newline-free pieces and splitting again gives back the pieces. */
  lemma {:induction false} LinesOfJoin(lines: seq<string>)
    requires |lines| >= 1
    requires forall j :: 0 <= j < |lines| ==> '\n' !in lines[j]
    ensures Lines(Join(lines)) == lines
  {
    if |lines| == 1 {
      LinesOfLine(lines[0]);
    } else {
      LinesOfJoin(lines[1..]);
      LinesOfPrefixed(lines[0], Join(lines[1..]));
      assert [lines[0]] + lines[1..] == lines;
    }
  }

  lemma {:induction false} LinesOfLine(l: string)
    requires '\n' !in l
    ensures Lines(l) == [l]
  {
    if l != [] {
      LinesOfLine(l[1..]);
      assert [l[0]] + l[1..] == l;
    }
  }

  lemma {:induction false} LinesOfPrefixed(l: string, rest: string)
    requires '\n' !in l
    ensures Lines(l + "\n" + rest) == [l] + Lines(rest)
  {
    if l == [] {
      assert l + "\n" + rest == "\n" + rest;
      assert ("\n" + rest)[1..] == rest;
    } else {
      LinesOfPrefixed(l[1..], rest);
      assert (l + "\n" + rest)[1..] == l[1..] + "\n" + rest;
      assert [l[0]] + l[1..] == l;
    }
  }

  /** Character-by-character prefix comparison agrees with comparing the prefix slice. */
  lemma {:induction false} StartsWithSlice(s: string, prefix: string)
    ensures StartsWith(s, prefix) <==> |prefix| <= |s| && s[..|prefix|] == prefix
  {
    if prefix != [] && s != [] {
      StartsWithSlice(s[1..], prefix[1..]);
      if |prefix| <= |s| && s[..|prefix|] == prefix {
        assert s[1..][..|prefix| - 1] == s[..|prefix|][1..];
      }
      if StartsWith(s, prefix) {
        assert s[..|prefix|] == [s[0]] + s[1..][..|prefix| - 1];
        assert prefix == [prefix[0]] + prefix[1..];
      }
    }
  }

  /** Lower-casing works character by character. */
  lemma {:induction false} ToLowerAt(s: string, i: nat)
    requires i < |s|
    ensures ToLower(s)[i] == LowerChar(s[i])
  {
    if i > 0 {
      ToLowerAt(s[1..], i - 1);
    }
  }

  lemma {:induction false} ContainsAt(s: string, i: nat, sub: string)
    requires i + |sub| <= |s| && s[i..i + |sub|] == sub
    ensures Contains(s, sub)
  {
    if i == 0 {
      StartsWithSlice(s, sub);
    } else {
      assert s[1..][i - 1..i - 1 + |sub|] == s[i..i + |sub|];
      ContainsAt(s[1..], i - 1, sub);
    }
  }

  /** A contained string occurs at some position. */
  lemma {:induction false} ContainsWitness(s: string, sub: string) returns (i: nat)
    requires Contains(s, sub)
    ensures i + |sub| <= |s| && s[i..i + |sub|] == sub
  {
    StartsWithSlice(s, sub);
    if StartsWith(s, sub) {
      i := 0;
    } else {
      var j := ContainsWitness(s[1..], sub);
      assert s[1..][j..j + |sub|] == s[j + 1..j + 1 + |sub|];
      i := j + 1;
    }
  }

  /** Containment is transitive. */
  lemma ContainsTrans(a: string, b: string, c: string)
    requires Contains(b, a) && Contains(c, b)
    ensures Contains(c, a)
  {
    var i := ContainsWitness(b, a);
    var j := ContainsWitness(c, b);
    forall k | 0 <= k < |a|
      ensures c[j + i + k] == a[k]
    {
      assert c[j + i + k] == c[j..j + |b|][i + k] == b[i + k] == b[i..i + |a|][k];
    }
    assert c[j + i..j + i + |a|] == a;
    ContainsAt(c, j + i, a);
  }

  /** Lower-casing commutes with taking an infix, so it preserves containment. */
  lemma LowerContains(s: string, sub: string)
    requires Contains(s, sub)
    ensures Contains(ToLower(s), ToLower(sub))
  {
    var i := ContainsWitness(s, sub);
    forall k | 0 <= k < |sub|
      ensures ToLower(s)[i + k] == ToLower(sub)[k]
    {
      ToLowerAt(s, i + k);
      ToLowerAt(sub, k);
      assert sub[k] == s[i..i + |sub|][k];
    }
    assert ToLower(s)[i..i + |sub|] == ToLower(sub);
    ContainsAt(ToLower(s), i, ToLower(sub));
  }

  lemma ContainsSuffix(s: string, sub: string)
    requires s != [] && Contains(s[1..], sub)
    ensures Contains(s, sub)
  {
  }

  /** What `trim()` keeps occurs in the original. */
  lemma TrimOccurs(s: string)
    ensures Contains(s, Trim(s))
  {
    ContainsAt(s, |s| - |TrimStart(s)|, Trim(s));
  }

  /** Every piece of a split occurs in the text. */
  lemma {:induction false} LinesOccurInText(s: string)
    ensures forall j :: 0 <= j < |Lines(s)| ==> Contains(s, Lines(s)[j])
  {
    if s == [] {
      ContainsAt(s, 0, "");
    } else {
      var rest := Lines(s[1..]);
      LinesOccurInText(s[1..]);
      forall j | 0 <= j < |Lines(s)|
        ensures Contains(s, Lines(s)[j])
      {
        if s[0] == '\n' {
          if j == 0 {
            ContainsAt(s, 0, "");
          } else {
            ContainsSuffix(s, rest[j - 1]);
          }
        } else if j == 0 {
          StartsLine(s, rest);
        } else {
          ContainsSuffix(s, rest[j]);
        }
      }
    }
  }

  /** The first piece of a split runs up to the first separator, so it is a prefix of the text. */
  lemma {:induction false} FirstLineIsPrefix(s: string)
    ensures StartsWith(s, Lines(s)[0])
  {
    if s != [] {
      FirstLineIsPrefix(s[1..]);
    }
  }

  lemma StartsLine(s: string, rest: seq<string>)
    requires s != [] && s[0] != '\n' && rest == Lines(s[1..])
    ensures Contains(s, [s[0]] + rest[0])
  {
    FirstLineIsPrefix(s[1..]);
    var line := [s[0]] + rest[0];
    assert line[1..] == rest[0];
    assert StartsWith(s, line);
  }

  /** Decimal rendering and digit-string reading are inverse. */
  lemma {:induction false} DecimalRoundTrip(n: nat)
    ensures DigitsValue(DecimalString(n)) == n
  {
    if n >= 10 {
      DecimalRoundTrip(n / 10);
      var s := DecimalString(n);
      assert s[..|s| - 1] == DecimalString(n / 10);
    }
  }
}
