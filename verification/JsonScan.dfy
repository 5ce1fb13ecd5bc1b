/** The one-pass JSON value scanner of device/device.c, and the printer it undoes. */
module JsonScan {
  import opened CText
  import opened HostText
  import opened TextLaws

  predicate MatchAt(json: string, key: string, i: nat) {
    i + |key| <= |json| && SameIgnoringCase(json[i..i + |key|], key)
  }

  /** `strcasestr`: the first case-insensitive occurrence. */
  function Find(json: string, key: string, from: nat := 0): (r: Option<nat>)
    requires from <= |json|
    ensures r.Some? ==> from <= r.value && MatchAt(json, key, r.value)
    ensures forall i :: from <= i < r.GetOr(|json| + 1) ==> !MatchAt(json, key, i)
    decreases |json| - from
  {
    if MatchAt(json, key, from) then Some(from)
    else if from == |json| then None
    else Find(json, key, from + 1)
  }

  /** `strchr`: the first c at or behind p. */
  function IndexOf(s: string, c: char, p: nat): (r: Option<nat>)
    requires p <= |s|
    ensures r.Some? ==> p <= r.value < |s| && s[r.value] == c
    ensures forall i :: p <= i < r.GetOr(|s|) ==> s[i] != c
    decreases |s| - p
  {
    if p == |s| then None
    else if s[p] == c then Some(p)
    else IndexOf(s, c, p + 1)
  }

  predicate Blank(c: char) {
    c == ' ' || c == '\t' || c == '\r' || c == '\n'
  }

  /** The first place at or behind p that is not blank. */
  function SkipBlanks(s: string, p: nat): (r: nat)
    requires p <= |s|
    ensures p <= r <= |s| && (r < |s| ==> !Blank(s[r]))
    ensures forall i :: p <= i < r ==> Blank(s[i])
    decreases |s| - p
  {
    if p < |s| && Blank(s[p]) then SkipBlanks(s, p + 1) else p
  }

  predicate EndsBare(c: char) {
    c == ',' || c == '}' || Blank(c)
  }

  /** Does the value end in front of c? */
  predicate Stops(c: char, quoted: bool) {
    if quoted then c == '\"' else EndsBare(c)
  }

  /** Where the next character of the value is: inside quotes a backslash yields what
      follows it. */
  function Skipped(s: string, p: nat, quoted: bool): (q: nat)
    requires p < |s|
    ensures p <= q < |s|
  {
    if quoted && s[p] == '\\' && p + 1 < |s| then p + 1 else p
  }

  /** The value that starts at p, of at most `room` characters. */
  function Value(s: string, p: nat, room: nat, quoted: bool): (v: string)
    requires p <= |s|
    ensures |v| <= room
    decreases |s| - p
  {
    if p == |s| || room == 0 || Stops(s[p], quoted) then ""
    else
      var q := Skipped(s, p, quoted);
      [s[q]] + Value(s, q + 1, room - 1, quoted)
  }

  /** Where a value starts, and whether it is quoted: after the first match of `key`, the
      next colon and any blanks. None when there is no match or no colon behind it. */
  function Start(json: string, key: string): (r: Option<(nat, bool)>)
    ensures r.Some? ==> r.value.0 <= |json|
  {
    match Find(json, key)
    case None => None
    case Some(i) =>
      match IndexOf(json, ':', i)
      case None => None
      case Some(c) =>
        var p := SkipBlanks(json, c + 1);
        if p < |json| && json[p] == '\"' then Some((p + 1, true)) else Some((p, false))
  }

  /** The value text of `key`, cut to `room` characters. */
  function ValueOf(json: string, key: string, room: nat): Option<string> {
    match Start(json, key)
    case None => None
    case Some((p, quoted)) => Some(Value(json, p, room, quoted))
  }

  method JsonGetStr(json: Option<CString>, key: CString, out: array<char>) returns (rc: int)
    modifies out
    ensures json.None? || out.Length == 0 || ValueOf(json.value, key, out.Length - 1).None? ==>
              rc == -1 && out[..] == old(out[..])
    ensures json.Some? && out.Length > 0 && ValueOf(json.value, key, out.Length - 1).Some? ==>
              var v := ValueOf(json.value, key, out.Length - 1).value;
              Holds(out, v) && rc == (if v != "" then 0 else -1)
  {
    hide Value, Start, Holds;
    if json.None? || out.Length == 0 {
      return -1;
    }
    var start := FindStart(json.value, key);
    if start.None? {
      return -1;
    }
    var i := CopyValue(json.value, start.value.0, start.value.1, out);
    rc := if i > 0 then 0 else -1;
  }

  /** The part of `json_get_str` in front of the copying: where the value starts. */
  method FindStart(text: string, key: string) returns (r: Option<(nat, bool)>)
    ensures r == Start(text, key)
  {
    hide Find, IndexOf, SkipBlanks;
    var at := Find(text, key);
    if at.None? {
      return None;
    }
    var colon := IndexOf(text, ':', at.value);
    if colon.None? {
      return None;
    }
    var p := PassBlanks(text, colon.value + 1);
    var quoted := false;
    if p < |text| && text[p] == '\"' {
      quoted := true;
      p := p + 1;
    }
    r := Some((p, quoted));
  }

  /** The blank-skipping loop of `json_get_str`. */
  method PassBlanks(text: string, start: nat) returns (p: nat)
    requires start <= |text|
    ensures p == SkipBlanks(text, start)
  {
    p := start;
    while p < |text| && Blank(text[p])
      invariant p <= |text| && SkipBlanks(text, p) == SkipBlanks(text, start)
      decreases |text| - p
    {
      p := p + 1;
    }
  }

  /** The copying loop of `json_get_str`, from the first character of the value. */
  method CopyValue(text: CString, start: nat, quoted: bool, out: array<char>) returns (i: nat)
    requires start <= |text| && out.Length > 0
    modifies out
    ensures Holds(out, Value(text, start, out.Length - 1, quoted))
    ensures i == |Value(text, start, out.Length - 1, quoted)|
  {
    ghost var v := Value(text, start, out.Length - 1, quoted);
    var p := start;
    i := 0;
    while p < |text| && i + 1 < out.Length
      invariant p <= |text| && i < out.Length
      invariant i <= |v| && out[..i] == v[..i]
      invariant v[i..] == Value(text, p, out.Length - 1 - i, quoted)
      decreases |text| - p
    {
      ghost var from := p;
      if quoted {
        if text[p] == '\\' && p + 1 < |text| {
          p := p + 1;
        } else if text[p] == '\"' {
          break;
        }
      } else if EndsBare(text[p]) {
        break;
      }
      ValueNext(text, from, out.Length - 1 - i, quoted);
      assert v[i] == v[i..][0] == text[p] && v[i + 1..] == v[i..][1..];
      out[i] := text[p];
      i, p := i + 1, p + 1;
    }
    assert v[i..] == "";
    ValueIsNulFree(text, start, out.Length - 1, quoted);
    Terminate(out, i, v);
  }

  lemma ValueNext(s: string, p: nat, room: nat, quoted: bool)
    requires p < |s| && room > 0 && !Stops(s[p], quoted)
    ensures var q := Skipped(s, p, quoted);
            Value(s, p, room, quoted) == [s[q]] + Value(s, q + 1, room - 1, quoted)
  {
  }

  lemma {:induction false} ValueIsNulFree(s: CString, p: nat, room: nat, quoted: bool)
    requires p <= |s|
    ensures NulFree(Value(s, p, room, quoted))
    decreases |s| - p
  {
    if p < |s| && room > 0 && !Stops(s[p], quoted) {
      ValueIsNulFree(s, Skipped(s, p, quoted) + 1, room - 1, quoted);
    }
  }

  // ------------------------------------------------------------ round trip

  /** Only the quote and the backslash are escaped. */
  function EscapeChar(c: char): (r: string)
    ensures |r| == 1 || |r| == 2
  {
    if c == '\"' || c == '\\' then ['\\', c] else [c]
  }

  /** A printer for string contents. */
  function Escape(v: string): string {
    if v == "" then "" else EscapeChar(v[0]) + Escape(v[1..])
  }

  /** The printer in so many words: a backslash in front of quotes and backslashes, and nothing else. */
  lemma {:induction false} EscapeByCharacter(v: string, c: char)
    ensures Escape("") == ""
    ensures Escape(v + [c]) == Escape(v) + (if c == '\"' then "\\\"" else if c == '\\' then "\\\\" else [c])
  {
    if v == "" {
      assert [c][1..] == "";
      assert v + [c] == [c];
    } else {
      assert (v + [c])[1..] == v[1..] + [c];
      EscapeByCharacter(v[1..], c);
    }
  }

  /** The first n characters of v, or all of them. */
  function Take(v: string, n: nat): string {
    if |v| <= n then v else v[..n]
  }

  lemma TakeCons(v: string, n: nat)
    requires v != "" && n > 0
    ensures Take(v, n) == [v[0]] + Take(v[1..], n - 1)
  {
  }

  /** The document `json` has `part` at p. */
  predicate At(json: string, p: nat, part: string) {
    p + |part| <= |json| && json[p..p + |part|] == part
  }

  lemma AtEnd(json: string, p: nat, part: string)
    requires At(json, p, part)
    ensures p + |part| <= |json|
  {
  }

  lemma AtParts(json: string, p: nat, a: string, b: string)
    requires At(json, p, a + b)
    ensures At(json, p, a) && At(json, p + |a|, b)
  {
    var q := p + |a| + |b|;
    assert json[p..q][..|a|] == json[p..p + |a|];
    assert json[p..q][|a|..] == json[p + |a|..q];
  }

  lemma AtChar(json: string, p: nat, part: string, i: nat)
    requires At(json, p, part) && i < |part|
    ensures json[p + i] == part[i]
  {
    assert json[p..p + |part|][i] == json[p + i];
  }

  /** A printed member: from the key at p to its colon (`head`, no other colon inside),
      blanks, and the quoted value. */
  predicate Member(json: string, p: nat, head: string, ws: string, v: string) {
    var colon := p + |head|;
    var open := colon + 1 + |ws|;
    && At(json, p, head) && (forall i :: 0 <= i < |head| ==> head[i] != ':')
    && At(json, colon, ":")
    && At(json, colon + 1, ws) && (forall i :: 0 <= i < |ws| ==> Blank(ws[i]))
    && At(json, open, "\"")
    && At(json, open + 1, Escape(v))
    && At(json, open + 1 + |Escape(v)|, "\"")
  }

  /** One escaped character, as the scanner meets it at p. */
  lemma EscapeStep(json: string, p: nat, c: char)
    requires At(json, p, EscapeChar(c))
    ensures json[p] != '\"' && json[p + |EscapeChar(c)| - 1] == c
    ensures json[p] == '\\' <==> |EscapeChar(c)| == 2
  {
    AtChar(json, p, EscapeChar(c), 0);
    AtChar(json, p, EscapeChar(c), |EscapeChar(c)| - 1);
  }

  lemma QuoteEndsValue(json: string, p: nat, v: string, room: nat)
    requires p <= |json| && (room == 0 || (v == "" && At(json, p, "\"")))
    ensures Value(json, p, room, true) == Take(v, room)
  {
    if room > 0 {
      AtChar(json, p, "\"", 0);
    }
  }

  lemma ValueOfEscape(json: string, p: nat, c: char, room: nat)
    requires room > 0 && At(json, p, EscapeChar(c))
    ensures Value(json, p, room, true) == [c] + Value(json, p + |EscapeChar(c)|, room - 1, true)
  {
    EscapeStep(json, p, c);
    ValueNext(json, p, room, true);
  }

  lemma {:induction false} ValueUndoesEscape(json: string, p: nat, v: string, room: nat)
    requires At(json, p, Escape(v)) && At(json, p + |Escape(v)|, "\"")
    ensures Value(json, p, room, true) == Take(v, room)
    decreases |v|
  {
    hide Value, At, Take;
    if v == "" || room == 0 {
      assert p <= |json| by { AtEnd(json, p, Escape(v)); }
      QuoteEndsValue(json, p, v, room);
    } else {
      var head, tail := EscapeChar(v[0]), Escape(v[1..]);
      assert Escape(v) == head + tail;
      AtParts(json, p, head, tail);
      ValueOfEscape(json, p, v[0], room);
      ValueUndoesEscape(json, p + |head|, v[1..], room - 1);
      TakeCons(v, room);
    }
  }

  /** Scanning a printed member, when its key is the first match, gives back the value that
      was printed, cut to the buffer. */
  lemma ScanUndoesPrint(json: string, p: nat, head: string, ws: string, v: string, key: string, room: nat)
    requires Member(json, p, head, ws, v) && Find(json, key) == Some(p)
    ensures ValueOf(json, key, room) == Some(Take(v, room))
  {
    hide At, Find, Start, Value, Take, Escape;
    StartOfMember(json, p, head, ws, v, key);
    ValueUndoesEscape(json, p + |head| + 2 + |ws|, v, room);
  }

  lemma StartOfMember(json: string, p: nat, head: string, ws: string, v: string, key: string)
    requires Member(json, p, head, ws, v) && Find(json, key) == Some(p)
    ensures Start(json, key) == Some((p + |head| + 2 + |ws|, true))
  {
    hide Find, IndexOf, SkipBlanks, Escape;
    ColonFound(json, p, head);
    AtChar(json, p + |head| + 1 + |ws|, "\"", 0);
    BlanksSkipped(json, p + |head| + 1, ws);
  }

  lemma ColonFound(json: string, p: nat, head: string)
    requires At(json, p, head) && At(json, p + |head|, ":")
    requires forall i :: 0 <= i < |head| ==> head[i] != ':'
    ensures IndexOf(json, ':', p) == Some(p + |head|)
  {
    AtChar(json, p + |head|, ":", 0);
    forall i | p <= i < p + |head| ensures json[i] != ':' {
      AtChar(json, p, head, i - p);
    }
  }

  lemma BlanksSkipped(json: string, p: nat, ws: string)
    requires At(json, p, ws) && p + |ws| < |json| && !Blank(json[p + |ws|])
    requires forall i :: 0 <= i < |ws| ==> Blank(ws[i])
    ensures SkipBlanks(json, p) == p + |ws|
  {
    forall i | p <= i < p + |ws| ensures Blank(json[i]) {
      AtChar(json, p, ws, i - p);
    }
  }

  // ------------------------------------------------------ values without quotes

  /** The white space of JSON, and what ends a value without quotes. */
  lemma BlankCharacters(c: char)
    ensures Blank(c) <==> c in " \t\r\n"
    ensures EndsBare(c) <==> c in ",} \t\r\n"
  {
  }

  /** No comma, brace or blank inside. */
  predicate Bare(v: string) {
    forall i :: 0 <= i < |v| ==> v[i] !in ",} \t\r\n"
  }

  /** Bare text at p, and then the end of the text, a comma, a brace or a blank. */
  predicate BareAt(json: string, p: nat, v: string) {
    && At(json, p, v) && Bare(v)
    && (p + |v| < |json| ==> json[p + |v|] in ",} \t\r\n")
  }

  lemma BareEnds(json: string, p: nat, room: nat)
    requires p <= |json| && (p < |json| ==> json[p] in ",} \t\r\n")
    ensures Value(json, p, room, false) == Take("", room)
  {
    if p < |json| { BlankCharacters(json[p]); }
  }

  lemma BareGoesOn(json: string, p: nat, c: char, rest: string)
    requires BareAt(json, p, [c] + rest)
    ensures p < |json| && json[p] == c && !EndsBare(c) && BareAt(json, p + 1, rest)
  {
    var v := [c] + rest;
    AtChar(json, p, v, 0);
    AtParts(json, p, [c], rest);
    BlankCharacters(v[0]);
    assert forall i :: 0 <= i < |rest| ==> rest[i] == v[i + 1];
    hide EndsBare, At;
  }

  lemma {:induction false} BareValue(json: string, p: nat, v: string, room: nat)
    requires BareAt(json, p, v)
    ensures p <= |json| && Value(json, p, room, false) == Take(v, room)
    decreases |v|
  {
    AtEnd(json, p, v);
    if v == "" {
      BareEnds(json, p, room);
    } else if room > 0 {
      assert v == [v[0]] + v[1..];
      BareGoesOn(json, p, v[0], v[1..]);
      hide Value, At, Take, EndsBare, BareAt, Bare;
      BareValue(json, p + 1, v[1..], room - 1);
      ValueNext(json, p, room, false);
      TakeCons(v, room);
    }
  }

  /** A printed member whose value has no quotes: from the key at p to its colon, blanks, the value. */
  predicate BareMember(json: string, p: nat, head: string, ws: string, v: string) {
    var colon := p + |head|;
    && At(json, p, head) && (forall i :: 0 <= i < |head| ==> head[i] != ':')
    && At(json, colon, ":")
    && At(json, colon + 1, ws) && (forall i :: 0 <= i < |ws| ==> Blank(ws[i]))
    && v != "" && v[0] != '\"' && BareAt(json, colon + 1 + |ws|, v)
  }

  lemma BareStarts(json: string, p: nat, v: string)
    requires At(json, p, v) && Bare(v) && v != ""
    ensures p < |json| && json[p] == v[0] && !Blank(json[p])
  {
    AtChar(json, p, v, 0);
    BlankCharacters(v[0]);
  }

  lemma StartOfBare(json: string, p: nat, head: string, ws: string, v: string, key: string)
    requires BareMember(json, p, head, ws, v) && Find(json, key) == Some(p)
    ensures Start(json, key) == Some((p + |head| + 1 + |ws|, false))
  {
    var q := p + |head| + 1 + |ws|;
    assert q < |json| && json[q] == v[0] && !Blank(json[q]) by {
      hide Find, Blank;
      BareStarts(json, q, v);
    }
    hide Find, IndexOf, SkipBlanks, Bare, EndsBare;
    ColonFound(json, p, head);
    BlanksSkipped(json, p + |head| + 1, ws);
  }

  /** It is scanned to the value too. */
  lemma {:induction false} ScanReadsBare(json: string, p: nat, head: string, ws: string, v: string, key: string, room: nat)
    requires BareMember(json, p, head, ws, v) && Find(json, key) == Some(p)
    ensures ValueOf(json, key, room) == Some(Take(v, room))
  {
    hide Find, Start, Value, Take, At, Bare, BareAt, Blank;
    BareValue(json, p + |head| + 1 + |ws|, v, room);
    StartOfBare(json, p, head, ws, v, key);
  }

  /** Without a match, or without a colon behind the first one, there is no value. */
  lemma NoValueWithoutMember(json: string, key: string, room: nat)
    requires (forall i: nat :: !MatchAt(json, key, i))
          || exists i: nat :: i <= |json| && MatchAt(json, key, i) && (forall j: nat :: j < i ==> !MatchAt(json, key, j))
                           && forall j :: i <= j < |json| ==> json[j] != ':'
    ensures ValueOf(json, key, room) == None
  {
  }

  // ---------------------------------------------------------- json_get_int

  method JsonGetInt(json: Option<CString>, key: CString) returns (n: Option<int>)
    ensures n == IntOf(json, key)
  {
    var buf := new char[32](_ => '\0');
    var rc := JsonGetStr(json, key, buf);
    if rc == 0 {
      var len := StrLen(buf, ValueOf(json.value, key, 31).value);
      n := Some(Atoi(buf[..len]));
    } else {
      n := None;
    }
  }

  function IntOf(json: Option<CString>, key: CString): Option<int> {
    if json.None? then None
    else
      match ValueOf(json.value, key, 31)
      case None => None
      case Some(v) => if v == "" then None else Some(Atoi(v))
  }

  /** The number of a printed member is the number that was printed, for every 32-bit number. */
  lemma {:induction false} NumberUndoesPrint(json: CString, p: nat, head: string, ws: string, n: int, key: CString)
    requires -0x8000_0000 <= n <= 0x7fff_ffff && Find(json, key) == Some(p)
    requires BareMember(json, p, head, ws, Decimal(n)) || Member(json, p, head, ws, Decimal(n))
    ensures IntOf(Some(json), key) == Some(n)
  {
    hide ValueOf, Decimal, Atoi, BareMember, Member, Find;
    if BareMember(json, p, head, ws, Decimal(n)) {
      ScanReadsBare(json, p, head, ws, Decimal(n), key, 31);
    } else {
      ScanUndoesPrint(json, p, head, ws, Decimal(n), key, 31);
    }
    DecimalFits(n);
    AtoiUndoesDecimal(n);
    DecimalHasNoEnd(n);
  }
}
