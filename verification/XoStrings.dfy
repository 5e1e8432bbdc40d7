/**
 Text exchanged with Xen Orchestra: a task path hidden in an unmarshal error
 (internal/controller/xomachine/xo_compat.go:29-48) and the name filter of a
 listing (internal/controller/xomachine/naming.go:107-115).
 */
module XoStrings {
  import opened Options
  import opened Strings

  // ---------------------------------------------------------------------------
  // Searching
  // ---------------------------------------------------------------------------

  /** strings.LastIndex, looking at the positions up to `from`. */
  function LastIndex(s: string, part: string, from: nat): (r: Option<nat>)
    ensures r.Some? ==> r.value <= from && PartAt(s, part, r.value)
    ensures r.None? ==> forall i :: 0 <= i <= from ==> !PartAt(s, part, i)
    ensures r.Some? ==> forall i :: r.value < i <= from ==> !PartAt(s, part, i)
  {
    if PartAt(s, part, from) then Some(from)
    else if from == 0 then None
    else LastIndex(s, part, from - 1)
  }

  lemma FirstIndex(s: string, c: char, n: nat)
    requires n < |s| && s[n] == c && c !in s[..n]
    ensures IndexChar(s, c) == n
  {
  }

  /** strings.Trim on double quotes. */
  function TrimLeft(s: string): string {
    if s != "" && s[0] == '"' then TrimLeft(s[1..]) else s
  }

  function TrimRight(s: string): string {
    if s != "" && s[|s| - 1] == '"' then TrimRight(s[..|s| - 1]) else s
  }

  function Trim(s: string): string {
    TrimRight(TrimLeft(s))
  }

  predicate Quotes(s: string) {
    forall i :: 0 <= i < |s| ==> s[i] == '"'
  }

  // ---------------------------------------------------------------------------
  // ExtractBareTaskPath
  // ---------------------------------------------------------------------------

  const EXTRA := "%!(EXTRA string="

  datatype Extraction = Path(path: string) | NoMarker | NotClosed | EmptyPath

  function ExtractBareTaskPath(error: string): Extraction {
    var index := LastIndex(error, EXTRA, |error|);
    if index.None? then NoMarker
    else
      var body := error[index.value + |EXTRA|..];
      var end := IndexChar(body, ')');
      if end == |body| then NotClosed
      else
        var path := Trim(body[..end]);
        if path == "" then EmptyPath else Path(path)
  }

  predicate IsPath(p: string) {
    p != "" && ')' !in p && p[0] != '"' && p[|p| - 1] != '"'
  }

  /** How an error carries a path: after the last marker, between quotes or bare, up to a closing parenthesis. */
  ghost predicate Carried(before: string, left: string, p: string, right: string, tail: string) {
    IsPath(p) && Quotes(left) && Quotes(right) && !Contains(left + p + right + ")" + tail, EXTRA)
  }

  function Message(before: string, left: string, p: string, right: string, tail: string): string {
    before + EXTRA + (left + p + right + ")" + tail)
  }

  lemma {:induction false} TrimQuoted(left: string, p: string, right: string)
    requires p != "" && p[0] != '"' && p[|p| - 1] != '"' && Quotes(left) && Quotes(right)
    ensures Trim(left + p + right) == p
    decreases |left| + |right|
  {
    if left != "" {
      assert (left + p + right)[1..] == left[1..] + p + right;
      TrimQuoted(left[1..], p, right);
    } else if right != "" {
      var s := left + p + right;
      assert TrimLeft(s) == s;
      assert s[..|s| - 1] == left + p + right[..|right| - 1];
      TrimQuoted(left, p, right[..|right| - 1]);
      assert TrimLeft(s[..|s| - 1]) == s[..|s| - 1];
    } else {
      assert left + p + right == p;
    }
  }

  lemma {:induction false} TrimLeftParts(s: string)
    ensures |TrimLeft(s)| <= |s| && s[|s| - |TrimLeft(s)|..] == TrimLeft(s) && Quotes(s[..|s| - |TrimLeft(s)|])
    ensures TrimLeft(s) == "" || TrimLeft(s)[0] != '"'
  {
    if s != "" && s[0] == '"' {
      TrimLeftParts(s[1..]);
      var n := |s| - |TrimLeft(s)|;
      assert s[..n] == [s[0]] + s[1..][..n - 1];
    }
  }

  lemma {:induction false} TrimRightParts(s: string)
    ensures |TrimRight(s)| <= |s| && s[..|TrimRight(s)|] == TrimRight(s) && Quotes(s[|TrimRight(s)|..])
    ensures TrimRight(s) == "" || TrimRight(s)[|TrimRight(s)| - 1] != '"'
  {
    if s != "" && s[|s| - 1] == '"' {
      TrimRightParts(s[..|s| - 1]);
      var n := |TrimRight(s)|;
      assert s[n..] == s[..|s| - 1][n..] + [s[|s| - 1]];
    }
  }

  /** Trimming takes quotes off both ends and nothing else. */
  lemma TrimParts(s: string) returns (left: string, right: string)
    ensures s == left + Trim(s) + right && Quotes(left) && Quotes(right)
    ensures Trim(s) != "" ==> Trim(s)[0] != '"' && Trim(s)[|Trim(s)| - 1] != '"'
  {
    var t := TrimLeft(s);
    TrimLeftParts(s);
    TrimRightParts(t);
    left, right := s[..|s| - |t|], t[|Trim(s)|..];
    assert s == left + t && t == Trim(s) + right;
  }

  /** The marker cannot overlap itself: after it, only what follows it matters. */
  lemma MarkerAfter(before: string, rest: string, i: int)
    requires i > |before|
    ensures PartAt(before + EXTRA + rest, EXTRA, i) <==> PartAt(rest, EXTRA, i - |before| - |EXTRA|)
  {
    var s := before + EXTRA + rest;
    var j := i - |before| - |EXTRA|;
    assert s[|before| + |EXTRA|..] == rest;
    if PartAt(s, EXTRA, i) {
      assert s[i] == s[i..i + |EXTRA|][0] == '%';
      assert forall k :: 0 <= k < |EXTRA| ==> s[|before| + k] == EXTRA[k];
      assert forall k :: 0 < k < |EXTRA| ==> EXTRA[k] != '%';
      assert s[i..i + |EXTRA|] == rest[j..j + |EXTRA|];
    }
    if PartAt(rest, EXTRA, j) {
      assert s[i..i + |EXTRA|] == rest[j..j + |EXTRA|];
    }
  }

  /** A marker with none after it is the last one. */
  lemma LastMarker(before: string, rest: string)
    ensures var s := before + EXTRA + rest;
            LastIndex(s, EXTRA, |s|) == Some(|before|) <==> !Contains(rest, EXTRA)
  {
    var s := before + EXTRA + rest;
    assert s[|before|..|before| + |EXTRA|] == EXTRA;
    assert PartAt(s, EXTRA, |before|);
    forall j | PartAt(rest, EXTRA, j) ensures PartAt(s, EXTRA, j + |before| + |EXTRA|) {
      MarkerAfter(before, rest, j + |before| + |EXTRA|);
    }
    forall i | i > |before| && PartAt(s, EXTRA, i) ensures Contains(rest, EXTRA) {
      MarkerAfter(before, rest, i);
    }
  }

  /** The path comes back from any message that carries it. */
  lemma CarriedIsExtracted(before: string, left: string, p: string, right: string, tail: string)
    requires Carried(before, left, p, right, tail)
    ensures ExtractBareTaskPath(Message(before, left, p, right, tail)) == Path(p)
  {
    var rest := left + p + right + ")" + tail;
    var s := before + EXTRA + rest;
    LastMarker(before, rest);
    assert s[|before| + |EXTRA|..] == rest;
    var inner := left + p + right;
    assert rest[..|inner|] == inner && rest[|inner|] == ')' && ')' !in inner;
    FirstIndex(rest, ')', |inner|);
    TrimQuoted(left, p, right);
  }

  /** A message that gives a path carries it. */
  lemma ExtractedIsCarried(s: string, p: string) returns (before: string, left: string, right: string, tail: string)
    requires ExtractBareTaskPath(s) == Path(p)
    ensures s == Message(before, left, p, right, tail) && Carried(before, left, p, right, tail)
  {
    var index := LastIndex(s, EXTRA, |s|).value;
    before := s[..index];
    var rest := s[index + |EXTRA|..];
    assert s == before + EXTRA + rest;
    LastMarker(before, rest);
    var end := IndexChar(rest, ')');
    left, right := TrimParts(rest[..end]);
    tail := rest[end + 1..];
    assert rest == rest[..end] + ")" + tail;
    assert forall c <- p :: c in rest[..end];
  }

  /** Extraction gives `p` exactly when the message carries it. */
  lemma ExtractionExact(s: string, p: string)
    ensures ExtractBareTaskPath(s) == Path(p)
        <==> exists before, left, right, tail :: Carried(before, left, p, right, tail)
                                                 && s == Message(before, left, p, right, tail)
  {
    if ExtractBareTaskPath(s) == Path(p) {
      var before, left, right, tail := ExtractedIsCarried(s, p);
    }
    forall before, left, right, tail |
        Carried(before, left, p, right, tail) && s == Message(before, left, p, right, tail)
      ensures ExtractBareTaskPath(s) == Path(p)
    {
      CarriedIsExtracted(before, left, p, right, tail);
    }
  }

  /** A path without a marker of its own, in any text whose tail has no second marker. */
  lemma PathRoundTrip(before: string, p: string, tail: string)
    requires p != "" && ')' !in p && p[0] != '"' && p[|p| - 1] != '"'
    requires !Contains(p, "%!(EXTRA string=") && !Contains(tail, "%!(EXTRA string=")
    ensures ExtractBareTaskPath(before + "%!(EXTRA string=" + ("\"" + p + "\"" + ")" + tail)) == Path(p)
    ensures ExtractBareTaskPath(before + "%!(EXTRA string=" + (p + ")" + tail)) == Path(p)
  {
    NoMarkerAround("\"", p, "\"", tail);
    NoMarkerAround("", p, "", tail);
    CarriedIsExtracted(before, "\"", p, "\"", tail);
    CarriedIsExtracted(before, "", p, "", tail);
    assert "" + p + "" + ")" + tail == p + ")" + tail;
  }

  /** Only what follows the last marker is read. */
  lemma ExtractionOf(before: string, rest: string)
    requires !Contains(rest, EXTRA)
    ensures var (end, r) := (IndexChar(rest, ')'), ExtractBareTaskPath(before + EXTRA + rest));
            r == (if end == |rest| then NotClosed
                  else if Trim(rest[..end]) == "" then EmptyPath else Path(Trim(rest[..end])))
  {
    LastMarker(before, rest);
    assert (before + EXTRA + rest)[|before| + |EXTRA|..] == rest;
  }

  lemma AfterLastMarker(error: string) returns (before: string, rest: string)
    requires Contains(error, EXTRA)
    ensures error == before + EXTRA + rest && !Contains(rest, EXTRA)
  {
    var i :| 0 <= i <= |error| && PartAt(error, EXTRA, i);
    var index := LastIndex(error, EXTRA, |error|);
    before, rest := error[..index.value], error[index.value + |EXTRA|..];
    assert error == before + EXTRA + rest;
    LastMarker(before, rest);
  }

  /** It fails for want of a marker exactly when the error holds none. */
  lemma FailsWithoutMarker(error: string)
    ensures ExtractBareTaskPath(error) == NoMarker <==> !Contains(error, "%!(EXTRA string=")
  {
    if Contains(error, EXTRA) {
      var before, rest := AfterLastMarker(error);
      ExtractionOf(before, rest);
    }
  }

  /** After the last marker it fails without a closing parenthesis, or with nothing but quotes before the first. */
  lemma FailsAfterMarker(before: string, rest: string)
    requires !Contains(rest, "%!(EXTRA string=")
    ensures var r := ExtractBareTaskPath(before + "%!(EXTRA string=" + rest);
            && (r == NotClosed <==> ')' !in rest)
            && (r == EmptyPath <==> exists end :: 0 <= end < |rest| && rest[end] == ')' && Quotes(rest[..end]))
  {
    ExtractionOf(before, rest);
    var end := IndexChar(rest, ')');
    if end < |rest| {
      TrimsToNothing(rest[..end]);
      forall e | 0 <= e < |rest| && rest[e] == ')' && Quotes(rest[..e]) ensures e == end {
        assert forall k :: 0 <= k < e ==> rest[k] == rest[..e][k];
        FirstIndex(rest, ')', e);
      }
    } else {
      assert rest[..end] == rest;
    }
  }

  lemma TrimsToNothing(s: string)
    ensures Trim(s) == "" <==> Quotes(s)
  {
    var left, right := TrimParts(s);
    if Trim(s) == "" {
      assert s == left + right;
    } else {
      assert s[|left|] == Trim(s)[0];
    }
  }

  /** A marker has no parenthesis that closes and no quote, so it lies in the path or in the tail. */
  lemma NoMarkerAround(left: string, p: string, right: string, tail: string)
    requires IsPath(p) && Quotes(left) && Quotes(right)
    requires !Contains(p, EXTRA) && !Contains(tail, EXTRA)
    ensures !Contains(left + p + right + ")" + tail, EXTRA)
  {
    var s := left + p + right + ")" + tail;
    forall i | PartAt(s, EXTRA, i) ensures false {
      MarkerBetween(left, p, right, tail, i);
    }
  }

  lemma MarkerBetween(left: string, p: string, right: string, tail: string, i: int)
    requires Quotes(left) && Quotes(right)
    requires PartAt(left + p + right + ")" + tail, EXTRA, i)
    ensures var end := |left + p + right|;
            PartAt(p, EXTRA, i - |left|) || PartAt(tail, EXTRA, i - end - 1)
  {
    var s := left + p + right + ")" + tail;
    var (k, end) := (|EXTRA|, |left + p + right|);
    assert forall j :: i <= j < i + k ==> s[j] == s[i..i + k][j - i];
    assert forall j :: i <= j < i + k ==> s[j] != '"' && s[j] != ')';
    assert forall j :: 0 <= j < |left| ==> s[j] == left[j] == '"';
    assert forall j :: end - |right| <= j < end ==> s[j] == right[j - (end - |right|)] == '"';
    assert s[end] == ')';
    if i > end {
      assert tail[i - end - 1..i - end - 1 + k] == s[i..i + k];
    } else {
      assert s[i] != '"';
      assert i >= |left|;
      assert s[i + k - 1] != '"' && i + k <= end;
      assert i + k <= |left + p|;
      assert p[i - |left|..i - |left| + k] == s[i..i + k];
    }
  }

  // ---------------------------------------------------------------------------
  // nameLabelFilter
  // ---------------------------------------------------------------------------

  function Escaped(name: string): string {
    if name == "" then ""
    else
      (if name[0] == '\\' then "\\\\" else if name[0] == '"' then "\\\"" else [name[0]]) + Escaped(name[1..])
  }

  const OPENING := "name_label:\""

  function NameLabelFilter(name: string): string {
    OPENING + Escaped(name) + "\""
  }

  /** The filter character by character: only backslashes and double quotes get a backslash in front. */
  lemma FilterExactly(c: char, name: string)
    ensures NameLabelFilter(name) == "name_label:\"" + Escaped(name) + "\"" && Escaped("") == ""
    ensures Escaped([c] + name)
         == (if c == '\\' then ['\\', '\\'] else if c == '"' then ['\\', '"'] else [c]) + Escaped(name)
  {
    assert ([c] + name)[1..] == name;
  }

  /** Reads a quoted value: up to the first unescaped quote, a backslash standing for the character after it. */
  function ReadQuoted(s: string): Option<(string, string)> {
    if s == "" then None
    else if s[0] == '"' then Some(("", s[1..]))
    else
      var n := if s[0] == '\\' then 2 else 1;
      if |s| < n then None
      else
        match ReadQuoted(s[n..])
        case None => None
        case Some((value, rest)) => Some(([s[n - 1]] + value, rest))
  }

  /** Whatever the name, its value ends at the closing quote and reads back as the name. */
  lemma {:induction false} EscapedReadsBack(name: string, rest: string)
    ensures ReadQuoted(Escaped(name) + "\"" + rest) == Some((name, rest))
  {
    var s := Escaped(name) + "\"" + rest;
    if name == "" {
      assert s == "\"" + rest && s[1..] == rest;
    } else {
      EscapedReadsBack(name[1..], rest);
      var n := if name[0] == '\\' || name[0] == '"' then 2 else 1;
      assert s[n..] == Escaped(name[1..]) + "\"" + rest;
      assert s[n - 1] == name[0];
      assert [name[0]] + name[1..] == name;
    }
  }

  /** The filter holds the one name, and nothing after it. */
  lemma FilterReadsBack(name: string)
    ensures NameLabelFilter(name)[..|OPENING|] == OPENING
    ensures ReadQuoted(NameLabelFilter(name)[|OPENING|..]) == Some((name, ""))
  {
    var f := NameLabelFilter(name);
    assert f[|OPENING|..] == Escaped(name) + "\"" + "";
    EscapedReadsBack(name, "");
  }

  lemma FilterInjective(a: string, b: string)
    ensures NameLabelFilter(a) == NameLabelFilter(b) <==> a == b
  {
    FilterReadsBack(a);
    FilterReadsBack(b);
  }
}
