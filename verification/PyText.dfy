/** The Python string operations the audit gate is written with. */
module PyText {
  import opened Wrappers

  // str.isspace: what strip removes.
  predicate IsSpace(c: char)
  {
    var n := c as int;
    (9 <= n <= 13) || (28 <= n <= 32) || n == 0x85 || n == 0xA0 || n == 0x1680 || (0x2000 <= n <= 0x200A)
    || n == 0x2028 || n == 0x2029 || n == 0x202F || n == 0x205F || n == 0x3000
  }

  function LStrip(s: string): string
  {
    if s != "" && IsSpace(s[0]) then LStrip(s[1..]) else s
  }

  function RStrip(s: string): string
  {
    if s != "" && IsSpace(s[|s| - 1]) then RStrip(s[..|s| - 1]) else s
  }

  function Strip(s: string): string
  {
    LStrip(RStrip(s))
  }

  // Neither end is white space.
  predicate Trimmed(s: string)
  {
    s != "" ==> !IsSpace(s[0]) && !IsSpace(s[|s| - 1])
  }

  lemma {:induction false} RStripEnd(s: string)
    ensures RStrip(s) <= s
    ensures RStrip(s) != "" ==> !IsSpace(RStrip(s)[|RStrip(s)| - 1])
  {
    if s == "" || !IsSpace(s[|s| - 1]) {
    } else {
      RStripEnd(s[..|s| - 1]);
    }
  }

  lemma {:induction false} LStripEnds(s: string)
    requires s != "" ==> !IsSpace(s[|s| - 1])
    ensures Trimmed(LStrip(s))
  {
    if s == "" || !IsSpace(s[0]) {
    } else {
      LStripEnds(s[1..]);
    }
  }

  lemma StripTrims(s: string)
    ensures Trimmed(Strip(s))
  {
    RStripEnd(s);
    LStripEnds(RStrip(s));
  }

  lemma StripTrimmed(s: string)
    requires Trimmed(s)
    ensures Strip(s) == s
  {
  }

  predicate Blank(s: string)
  {
    forall i | 0 <= i < |s| :: IsSpace(s[i])
  }

  lemma {:induction false} RStripAbsorbs(s: string, end: string)
    requires Blank(end)
    ensures RStrip(s + end) == RStrip(s)
  {
    if end == "" {
      assert s + end == s;
    } else {
      assert (s + end)[..|s + end| - 1] == s + end[..|end| - 1];
      RStripAbsorbs(s, end[..|end| - 1]);
    }
  }

  lemma {:induction false} LStripAbsorbs(pad: string, s: string)
    requires Blank(pad)
    ensures LStrip(pad + s) == LStrip(s)
  {
    if pad == "" {
      assert pad + s == s;
    } else {
      assert (pad + s)[1..] == pad[1..] + s;
      LStripAbsorbs(pad[1..], s);
    }
  }

  lemma {:induction false} RStripBehind(pad: string, s: string)
    requires Blank(pad)
    ensures RStrip(pad + s) == if RStrip(s) == "" then "" else pad + RStrip(s)
  {
    if s == "" {
      RStripAbsorbs("", pad);
      assert "" + pad == pad + s;
    } else if IsSpace(s[|s| - 1]) {
      assert (pad + s)[..|pad + s| - 1] == pad + s[..|s| - 1];
      RStripBehind(pad, s[..|s| - 1]);
    }
  }

  // Blanks at the ends of a text are never seen.
  lemma StripPadded(pad: string, s: string, end: string)
    requires Blank(pad) && Blank(end)
    ensures Strip(pad + s + end) == Strip(s)
  {
    RStripAbsorbs(pad + s, end);
    RStripBehind(pad, s);
    LStripAbsorbs(pad, RStrip(s));
  }

  // Blanks are all that separates a text from the ends of its line.
  lemma StripBlanks(pad: string, s: string, end: string)
    requires Blank(pad) && Blank(end) && Trimmed(s)
    ensures Strip(pad + s + end) == s
  {
    StripPadded(pad, s, end);
    StripTrimmed(s);
  }

  // str.split(":", 1) into exactly two parts; None is the failed unpacking.
  function SplitColon(s: string): Option<(string, string)>
  {
    if s == "" then None
    else if s[0] == ':' then Some(("", s[1..]))
    else
      var rest := SplitColon(s[1..]);
      if rest.None? then None else Some(([s[0]] + rest.value.0, rest.value.1))
  }

  lemma {:induction false} SplitColonSome(s: string)
    ensures SplitColon(s).Some? <==> ':' in s
  {
    if s == "" || s[0] == ':' {
    } else {
      SplitColonSome(s[1..]);
    }
  }

  lemma {:induction false} SplitColonAt(k: string, v: string)
    requires ':' !in k
    ensures SplitColon(k + ":" + v) == Some((k, v))
  {
    if k == "" {
      assert k + ":" + v == ":" + v;
      assert (":" + v)[1..] == v;
    } else {
      assert (k + ":" + v)[1..] == k[1..] + ":" + v;
      SplitColonAt(k[1..], v);
      assert [k[0]] + k[1..] == k;
    }
  }

  predicate QuotedBy(s: string, q: char)
  {
    s != "" && s[0] == q && s[|s| - 1] == q
  }

  // value[1:-1]: a lone quote gives the empty string.
  function Unquote(s: string): string
  {
    if QuotedBy(s, '"') || QuotedBy(s, '\'') then (if |s| == 1 then "" else s[1..|s| - 1]) else s
  }

  // split_kv: None when the line has no colon, which raises in the source.
  function SplitKV(line: string): Option<(string, string)>
  {
    match SplitColon(line)
    case None => None
    case Some((key, value)) => Some((Strip(key), Unquote(Strip(value))))
  }
}
