/** Characters, decimal numbers and lists of text, as the inspector's modules share them. */
module Text {

  datatype Option<+T> = None | Some(value: T)

  datatype Result<+T, +E> = Ok(value: T) | Err(error: E)

  predicate IsLower(c: char) { 'a' <= c <= 'z' }

  predicate IsDigit(c: char) { '0' <= c <= '9' }

  /** The class `[a-z0-9_]` of fragment names. */
  predicate IsWord(c: char) { IsLower(c) || IsDigit(c) || c == '_' }

  predicate IsHex(c: char) { IsDigit(c) || 'a' <= c <= 'f' }

  predicate AllLower(s: string) { forall c | c in s :: IsLower(c) }

  predicate AllWord(s: string) { forall c | c in s :: IsWord(c) }

  predicate AllHex(s: string) { forall c | c in s :: IsHex(c) }

  /** The length of the longest prefix of `s` made of lower-case letters. */
  function LowerRun(s: string): (n: nat)
    ensures n <= |s| && AllLower(s[..n])
    ensures n < |s| ==> !IsLower(s[n])
  {
    if s == "" || !IsLower(s[0]) then 0
    else
      assert s == [s[0]] + s[1..];
      1 + LowerRun(s[1..])
  }

  /** The length of the longest prefix of `s` made of name characters. */
  function WordRun(s: string): (n: nat)
    ensures n <= |s| && AllWord(s[..n])
    ensures n < |s| ==> !IsWord(s[n])
  {
    if s == "" || !IsWord(s[0]) then 0
    else
      assert s == [s[0]] + s[1..];
      1 + WordRun(s[1..])
  }

  lemma {:induction false} LowerRunStops(a: string, rest: string)
    requires AllLower(a) && (rest == "" || !IsLower(rest[0]))
    ensures LowerRun(a + rest) == |a|
  {
    if a == "" {
      assert a + rest == rest;
    } else {
      assert (a + rest)[1..] == a[1..] + rest;
      LowerRunStops(a[1..], rest);
    }
  }

  lemma {:induction false} LowerRunWithin(a: string, rest: string)
    requires rest != "" && !IsLower(rest[0])
    ensures LowerRun(a + rest) <= |a|
  {
    if a == "" {
      assert a + rest == rest;
    } else {
      assert (a + rest)[1..] == a[1..] + rest;
      LowerRunWithin(a[1..], rest);
    }
  }

  lemma {:induction false} WordRunStops(a: string, rest: string)
    requires AllWord(a) && (rest == "" || !IsWord(rest[0]))
    ensures WordRun(a + rest) == |a|
  {
    if a == "" {
      assert a + rest == rest;
    } else {
      assert (a + rest)[1..] == a[1..] + rest;
      WordRunStops(a[1..], rest);
    }
  }

  /** `parts.join(",")`. */
  function Join(parts: seq<string>): string
  {
    if parts == [] then ""
    else if |parts| == 1 then parts[0]
    else parts[0] + "," + Join(parts[1..])
  }

  lemma JoinTwo(a: string, b: string)
    ensures Join([a, b]) == a + "," + b
  {
    assert [a, b][1..] == [b];
  }

  lemma JoinCons(first: string, rest: seq<string>)
    requires rest != []
    ensures Join([first] + rest) == first + "," + Join(rest)
  {
    assert ([first] + rest)[1..] == rest;
  }

  /** `String(n)` for a whole number. */
  function Decimal(n: nat): (s: string)
    ensures |s| >= 1 && forall c | c in s :: IsDigit(c)
    ensures n <= 1 <==> s in {"0", "1"}
  {
    if n < 10 then [Digit(n)] else Decimal(n / 10) + [Digit(n % 10)]
  }

  function Digit(d: nat): (c: char)
    requires d < 10
    ensures IsDigit(c) && c as int == '0' as int + d
  {
    '0' + d as char
  }

  /** `Number(s)` where `s` is a plain decimal; anything else is outside the numbers modelled. */
  function Number(s: string): Option<nat>
  {
    if s == "" || !IsDigit(s[|s| - 1]) then None
    else
      var low := s[|s| - 1] as int - '0' as int;
      if |s| == 1 then Some(low)
      else match Number(s[..|s| - 1])
        case None => None
        case Some(high) => Some(10 * high + low)
  }

  /** Reading a printed number gives the number back. */
  lemma {:induction false} NumberOfDecimal(n: nat)
    ensures Number(Decimal(n)) == Some(n)
  {
    if n >= 10 {
      NumberOfDecimal(n / 10);
      var s := Decimal(n);
      assert s[..|s| - 1] == Decimal(n / 10);
    }
  }

  /** `String(n)` for a whole number of either sign. */
  function IntText(n: int): (s: string)
    ensures |s| >= 1 && forall c | c in s :: IsDigit(c) || c == '-'
  {
    if n < 0 then "-" + Decimal(-n) else Decimal(n)
  }

  /** `Number(s)` for a plain decimal with an optional minus sign. */
  function ReadInt(s: string): Option<int>
  {
    if s != "" && s[0] == '-' then
      match Number(s[1..]) case None => None case Some(n) => Some(0 - n as int)
    else
      match Number(s) case None => None case Some(n) => Some(n)
  }

  lemma ReadOfIntText(n: int)
    ensures ReadInt(IntText(n)) == Some(n)
  {
    if n < 0 {
      NumberOfDecimal(-n);
      assert IntText(n)[1..] == Decimal(-n);
    } else {
      NumberOfDecimal(n);
      assert Decimal(n)[0] in Decimal(n);
    }
  }

  /** The white space that `trim` removes. */
  predicate IsSpace(c: char)
  {
    var code := c as int;
    || 9 <= code <= 13 || code == 32 || code == 0xa0 || code == 0x1680 || 0x2000 <= code <= 0x200a
    || code == 0x2028 || code == 0x2029 || code == 0x202f || code == 0x205f || code == 0x3000 || code == 0xfeff
  }

  /** `s.trim()`. */
  function Trim(s: string): string
  {
    if s == "" then s
    else if IsSpace(s[0]) then Trim(s[1..])
    else if IsSpace(s[|s| - 1]) then Trim(s[..|s| - 1])
    else s
  }

  /** Trimming takes away exactly the white space around a text that neither starts nor ends with any. */
  lemma {:induction false} TrimOf(before: string, middle: string, after: string)
    requires forall c | c in before + after :: IsSpace(c)
    requires middle != "" && !IsSpace(middle[0]) && !IsSpace(middle[|middle| - 1])
    ensures Trim(before + middle + after) == middle
    decreases |before| + |after|
  {
    var s := before + middle + after;
    if before != "" {
      assert before[0] in before + after;
      assert s[1..] == before[1..] + middle + after;
      assert forall c | c in before[1..] + after :: c in before + after;
      TrimOf(before[1..], middle, after);
    } else if after != "" {
      assert s[0] == middle[0] && s[|s| - 1] == after[|after| - 1];
      assert after[|after| - 1] in before + after;
      assert s[..|s| - 1] == before + middle + after[..|after| - 1];
      assert forall c | c in before + after[..|after| - 1] :: c in before + after;
      TrimOf(before, middle, after[..|after| - 1]);
    } else {
      assert s == middle;
    }
  }

  /** `s.toLowerCase()` on the Latin letters; no other character becomes a hexadecimal digit. */
  function Lower(s: string): string
  {
    seq(|s|, i requires 0 <= i < |s| => if 'A' <= s[i] <= 'Z' then s[i] - 'A' + 'a' else s[i])
  }

  /** `textLines`: carriage returns are dropped, and a line feed ends a line. */
  function LinesOf(text: string): (lines: seq<string>)
    ensures lines != []
  {
    if text == "" then [""]
    else
      var before, c := LinesOf(text[..|text| - 1]), text[|text| - 1];
      if c == '\r' then before
      else if c == '\n' then before + [""]
      else before[..|before| - 1] + [before[|before| - 1] + [c]]
  }

  /** The lines with a line feed between them. */
  function WithLineFeeds(lines: seq<string>): string
    requires lines != []
  {
    if |lines| == 1 then lines[0] else WithLineFeeds(lines[..|lines| - 1]) + "\n" + lines[|lines| - 1]
  }

  /** `text.replaceAll("\r", "")`. */
  function WithoutReturns(text: string): string
  {
    if text == "" then ""
    else
      var front, last := WithoutReturns(text[..|text| - 1]), text[|text| - 1];
      if last == '\r' then front else front + [last]
  }

  /** No line holds a line end, and with line feeds between them the lines are the text without its carriage returns. */
  lemma {:induction false} LinesMakeText(text: string)
    ensures WithLineFeeds(LinesOf(text)) == WithoutReturns(text)
    ensures forall i | 0 <= i < |LinesOf(text)| :: '\n' !in LinesOf(text)[i] && '\r' !in LinesOf(text)[i]
  {
    if text != "" {
      var before, c := LinesOf(text[..|text| - 1]), text[|text| - 1];
      LinesMakeText(text[..|text| - 1]);
      if c == '\n' {
        OneMoreLine(before, "");
        assert WithLineFeeds(before) + "\n" + "" == WithLineFeeds(before) + "\n";
      } else if c != '\r' {
        var front, last := before[..|before| - 1], before[|before| - 1];
        assert before == front + [last];
        LastLineGrows(front, last, c);
      }
    }
  }

  lemma OneMoreLine(front: seq<string>, last: string)
    requires front != []
    ensures WithLineFeeds(front + [last]) == WithLineFeeds(front) + "\n" + last
  {
    assert (front + [last])[..|front|] == front;
  }

  lemma OnlyLine(line: string)
    ensures WithLineFeeds([line]) == line
  {
  }

  lemma Regrouped(a: string, b: string, c: string)
    ensures a + (b + c) == a + b + c
  {
  }

  lemma LastLineGrows(front: seq<string>, last: string, c: char)
    ensures WithLineFeeds(front + [last + [c]]) == WithLineFeeds(front + [last]) + [c]
  {
    hide WithLineFeeds;
    if |front| == 0 {
      assert front + [last + [c]] == [last + [c]] && front + [last] == [last];
      OnlyLine(last);
      OnlyLine(last + [c]);
    } else {
      OneMoreLine(front, last);
      OneMoreLine(front, last + [c]);
      Regrouped(WithLineFeeds(front) + "\n", last, [c]);
    }
  }

  predicate Distinct<T(==)>(xs: seq<T>) { forall i, j | 0 <= i < j < |xs| :: xs[i] != xs[j] }

  function Members<T(==)>(xs: seq<T>): set<T> { set x | x in xs }
}
