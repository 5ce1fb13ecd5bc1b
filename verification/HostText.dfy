/** The in-place host and port routines of device/device.c, each proved equal to a
    functional specification of the text in the buffer. */
module HostText {
  import opened CText
  import opened TextLaws

  // ---------------------------------------------------------------- buffers

  /** The buffer holds the C string `s`: its text up to the first terminator. */
  predicate Holds(a: array<char>, s: string)
    reads a
  {
    |s| < a.Length && a[..|s|] == s && a[|s|] == '\0' && NulFree(s)
  }

  /** `strlen`. */
  method StrLen(a: array<char>, ghost s: string) returns (n: nat)
    requires Holds(a, s)
    ensures n == |s|
  {
    n := 0;
    while a[n] != '\0'
      invariant n <= |s|
      decreases |s| - n
    {
      n := n + 1;
    }
  }

  /** `memmove` inside one buffer: all reads happen before all writes. */
  method MemMove(a: array<char>, dst: nat, src: nat, n: nat)
    requires dst + n <= a.Length && src + n <= a.Length
    modifies a
    ensures forall k :: dst <= k < dst + n ==> a[k] == old(a[k - dst + src])
    ensures forall k :: 0 <= k < a.Length && !(dst <= k < dst + n) ==> a[k] == old(a[k])
  {
    forall k | 0 <= k < n {
      a[dst + k] := a[src + k];
    }
  }

  /** `memmove(s, s + k, strlen(s + k) + 1)`. */
  method DropFirst(a: array<char>, k: nat, ghost s: string)
    requires Holds(a, s) && k <= |s|
    modifies a
    ensures Holds(a, s[k..])
  {
    var n := StrLen(a, s);
    assert forall i :: 0 <= i < n ==> a[i] == s[i];
    MemMove(a, 0, k, n - k + 1);
  }

  /** `s[n] = 0` cuts the text at n. */
  method Terminate(a: array<char>, n: nat, ghost s: string)
    requires n < a.Length && a[..n] == s && NulFree(s)
    modifies a
    ensures Holds(a, s)
  {
    a[n] := '\0';
  }

  /** `snprintf(a, a.Length, "%s", s)`. */
  method Print(a: array<char>, s: CString)
    requires a.Length > 0
    modifies a
    ensures Holds(a, Cut(s, a.Length))
  {
    var r := Cut(s, a.Length);
    forall k | 0 <= k < |r| {
      a[k] := r[k];
    }
    Terminate(a, |r|, r);
  }

  // ---------------------------------------------------------------- trim_str

  function TrimLeft(s: string): string {
    SkipSpace(s)
  }

  function TrimRight(s: string): (r: string)
    ensures |r| <= |s|
    ensures forall c :: c in r ==> c in s
  {
    if s != "" && IsSpace(s[|s| - 1]) then TrimRight(s[..|s| - 1]) else s
  }

  function Trim(s: string): string {
    TrimRight(TrimLeft(s))
  }

  predicate AllSpace(s: string) {
    forall c :: c in s ==> IsSpace(c)
  }

  /** Neither end of `s` is white space. */
  predicate Tight(s: string) {
    s != "" ==> !IsSpace(s[0]) && !IsSpace(s[|s| - 1])
  }

  lemma {:induction false} TrimLeftDrops(pre: string, s: string)
    requires AllSpace(pre)
    ensures TrimLeft(pre + s) == TrimLeft(s)
  {
    if pre == "" {
      assert pre + s == s;
    } else {
      assert (pre + s)[1..] == pre[1..] + s;
      assert pre[0] in pre;
      TrimLeftDrops(pre[1..], s);
    }
  }

  lemma {:induction false} TrimRightDrops(s: string, post: string)
    requires AllSpace(post)
    ensures TrimRight(s + post) == TrimRight(s)
  {
    if post == "" {
      assert s + post == s;
    } else {
      var last := |post| - 1;
      assert (s + post)[..|s + post| - 1] == s + post[..last];
      assert post[last] in post;
      TrimRightDrops(s, post[..last]);
    }
  }

  /** Trimming is the maximal trim: whatever white space surrounds a tight middle, the
      middle is the result. */
  lemma TrimIsMaximal(pre: string, mid: string, post: string)
    requires AllSpace(pre) && AllSpace(post) && Tight(mid)
    ensures Trim(pre + mid + post) == mid
  {
    assert pre + mid + post == pre + (mid + post);
    TrimLeftDrops(pre, mid + post);
    if mid == "" {
      assert mid + post == post + "";
      TrimLeftDrops(post, "");
    } else {
      assert TrimLeft(mid + post) == mid + post;
      TrimRightDrops(mid, post);
    }
  }

  /** Every string splits that way, so TrimIsMaximal describes all inputs. */
  lemma {:induction false} TrimSplits(s: string) returns (pre: string, post: string)
    ensures s == pre + Trim(s) + post
    ensures AllSpace(pre) && AllSpace(post) && Tight(Trim(s))
  {
    var t := TrimLeft(s);
    pre := SkippedSpace(s);
    post := TrimmedEnd(t);
    assert s == pre + (Trim(s) + post);
    assert Trim(s) != "" ==> Trim(s)[0] == t[0];
  }

  lemma {:induction false} SkippedSpace(s: string) returns (pre: string)
    ensures s == pre + TrimLeft(s) && AllSpace(pre)
    ensures TrimLeft(s) != "" ==> !IsSpace(TrimLeft(s)[0])
  {
    pre := "";
    if s != "" && IsSpace(s[0]) {
      var rest := SkippedSpace(s[1..]);
      pre := [s[0]] + rest;
      assert s == [s[0]] + s[1..];
    }
  }

  lemma {:induction false} TrimmedEnd(s: string) returns (post: string)
    ensures s == TrimRight(s) + post && AllSpace(post)
    ensures TrimRight(s) != "" ==> !IsSpace(TrimRight(s)[|TrimRight(s)| - 1])
  {
    post := "";
    if s != "" && IsSpace(s[|s| - 1]) {
      var last := |s| - 1;
      var rest := TrimmedEnd(s[..last]);
      post := rest + [s[last]];
      var kept := TrimRight(s);
      assert s == s[..last] + [s[last]] == (kept + rest) + [s[last]] == kept + post;
    }
  }

  method TrimStr(a: array<char>, ghost s: string)
    requires Holds(a, s)
    modifies a
    ensures Holds(a, Trim(s))
  {
    var p := 0;
    while a[p] != '\0' && IsSpace(a[p])
      invariant p <= |s| && TrimLeft(s[p..]) == TrimLeft(s)
      decreases |s| - p
    {
      assert a[p] == s[p] && s[p..][1..] == s[p + 1..];
      p := p + 1;
    }
    assert p < |s| ==> a[p] == s[p];
    if p != 0 {
      DropFirst(a, p, s);
    }
    DropTrailingSpace(a, s[p..]);
  }

  /** The second loop of `trim_str`. */
  method DropTrailingSpace(a: array<char>, ghost s: string)
    requires Holds(a, s)
    modifies a
    ensures Holds(a, TrimRight(s))
  {
    var len := StrLen(a, s);
    ghost var now := s;
    while len > 0 && IsSpace(a[len - 1])
      invariant len == |now| && Holds(a, now) && TrimRight(now) == TrimRight(s)
    {
      ghost var next := now[..len - 1];
      assert a[len - 1] == now[len - 1];
      len := len - 1;
      Terminate(a, len, next);
      now := next;
    }
    assert len > 0 ==> a[len - 1] == now[len - 1];
  }

  // ----------------------------------------------------------- sanitize_host

  predicate Allowed(c: char) {
    IsDigit(c) || 'A' <= c <= 'Z' || 'a' <= c <= 'z' || c == '.' || c == '-' || c == '_' || c == ':'
  }

  const CAPITALS := "ABCDEFGHIJKLMNOPQRSTUVWXYZ"
  const SMALL_LETTERS := "abcdefghijklmnopqrstuvwxyz"

  lemma CapitalLetters(c: char)
    ensures 'A' <= c <= 'Z' <==> c in CAPITALS
  {
    if 'A' <= c <= 'Z' { assert CAPITALS[c as int - 'A' as int] == c; }
  }

  lemma SmallLetters(c: char)
    ensures 'a' <= c <= 'z' <==> c in SMALL_LETTERS
  {
    if 'a' <= c <= 'z' { assert SMALL_LETTERS[c as int - 'a' as int] == c; }
  }

  /** The characters a host may have. */
  lemma AllowedCharacters(c: char)
    ensures Allowed(c) <==> c in CAPITALS || c in SMALL_LETTERS || c in "0123456789" || c in ".-_:"
  {
    CapitalLetters(c);
    SmallLetters(c);
    DigitCharacters(c);
    hide CAPITALS, SMALL_LETTERS;
  }

  predicate AllAllowed(s: string) {
    forall c :: c in s ==> Allowed(c)
  }

  /** The order-preserving filter of the allowed characters. */
  function Keep(s: string): (r: string)
    ensures |r| <= |s|
  {
    if s == "" then ""
    else Keep(s[..|s| - 1]) + (if Allowed(s[|s| - 1]) then [s[|s| - 1]] else "")
  }

  lemma {:induction false} KeepIsAllowed(s: string)
    ensures AllAllowed(Keep(s)) && NulFree(Keep(s))
  {
    if s != "" {
      KeepIsAllowed(s[..|s| - 1]);
    }
  }

  /** Keep filters each part on its own and keeps the parts in order. */
  lemma {:induction false} KeepConcat(a: string, b: string)
    ensures Keep(a + b) == Keep(a) + Keep(b)
  {
    if b == "" {
      assert a + b == a;
    } else {
      assert (a + b)[..|a + b| - 1] == a + b[..|b| - 1];
      KeepConcat(a, b[..|b| - 1]);
    }
  }

  lemma KeepNext(s: string, r: nat)
    requires r < |s|
    ensures Keep(s[..r + 1]) == Keep(s[..r]) + (if Allowed(s[r]) then [s[r]] else "")
  {
    assert s[..r + 1][..r] == s[..r];
  }

  lemma {:induction false} KeepFixes(s: string)
    ensures Keep(s) == s <==> AllAllowed(s)
  {
    if s != "" {
      KeepFixes(s[..|s| - 1]);
      assert s == s[..|s| - 1] + [s[|s| - 1]];
      assert forall c :: c in s[..|s| - 1] ==> c in s;
    }
  }

  lemma {:induction false} KeepDropsSpace(s: string)
    requires AllSpace(s)
    ensures Keep(s) == ""
  {
    if s != "" {
      assert s[|s| - 1] in s;
      KeepDropsSpace(s[..|s| - 1]);
    }
  }

  /** Trimming before sanitising changes nothing. */
  lemma TrimIsRedundant(s: string)
    ensures Keep(Trim(s)) == Keep(s)
  {
    var pre, post := TrimSplits(s);
    KeepAroundSpace(pre, Trim(s), post);
  }

  lemma KeepAroundSpace(pre: string, mid: string, post: string)
    requires AllSpace(pre) && AllSpace(post)
    ensures Keep(pre + mid + post) == Keep(mid)
  {
    KeepConcat(pre + mid, post);
    KeepConcat(pre, mid);
    KeepDropsSpace(pre);
    KeepDropsSpace(post);
  }

  method SanitizeHost(a: array<char>, ghost s: string)
    requires Holds(a, s)
    modifies a
    ensures Holds(a, Keep(s))
  {
    var w, r := 0, 0;
    while a[r] != '\0'
      invariant w <= r <= |s| < a.Length
      invariant forall k :: r <= k < |s| ==> a[k] == s[k]
      invariant a[|s|] == '\0'
      invariant a[..w] == Keep(s[..r])
      decreases |s| - r
    {
      var c := a[r];
      ghost var kept := a[..w];
      KeepNext(s, r);
      if Allowed(c) {
        a[w] := c;
        assert a[..w + 1] == kept + [c];
        w := w + 1;
      }
      r := r + 1;
    }
    assert s[..r] == s;
    KeepIsAllowed(s);
    Terminate(a, w, Keep(s));
  }

  // --------------------------------------------------- cleanup_escape_prefix

  /** A letter a naive reader leaves behind from the escapes \n, \t and \r. */
  predicate EscapeLetter(c: char) {
    c == 'n' || c == 't' || c == 'r'
  }

  /** One or two escape letters are dropped, and only in front of a digit. */
  function AfterEscapes(s: string): string {
    if |s| > 1 && EscapeLetter(s[0]) && IsDigit(s[1]) then s[1..]
    else if |s| > 2 && EscapeLetter(s[0]) && EscapeLetter(s[1]) && IsDigit(s[2]) then s[2..]
    else s
  }

  method CleanupEscapePrefix(a: array<char>, ghost s: string)
    requires Holds(a, s)
    modifies a
    ensures Holds(a, AfterEscapes(s))
  {
    ghost var now := s;
    while a[0] != '\0' && EscapeLetter(a[0])
      invariant Holds(a, now)
      invariant now == s || (now == AfterEscapes(s) && now != "" && IsDigit(now[0]))
      decreases |now|
    {
      assert forall k :: 0 <= k < |now| ==> a[k] == now[k];
      if IsDigit(a[1]) {
        DropFirst(a, 1, now);
        now := now[1..];
        continue;
      }
      if EscapeLetter(a[1]) && IsDigit(a[2]) {
        DropFirst(a, 2, now);
        now := now[2..];
        continue;
      }
      break;
    }
    assert forall k :: 0 <= k < |now| ==> a[k] == now[k];
  }

  /** The text begins with k of the letters n, t and r, and then comes a digit. */
  predicate LettersThenDigit(s: string, k: nat) {
    k < |s| && '0' <= s[k] <= '9' && forall i :: 0 <= i < k ==> s[i] == 'n' || s[i] == 't' || s[i] == 'r'
  }

  /** What the comment above the routine promises: one, two or three such letters are dropped. */
  function Promised(s: string): string {
    if LettersThenDigit(s, 1) then s[1..]
    else if LettersThenDigit(s, 2) then s[2..]
    else if LettersThenDigit(s, 3) then s[3..]
    else s
  }

  /** The promise is kept for every text but those with exactly three letters in front of a digit;
      there all three stay. */
  lemma {:induction false} PromiseFailsOnThree(s: string)
    ensures AfterEscapes(s) == Promised(s) <==> !LettersThenDigit(s, 3)
    ensures LettersThenDigit(s, 3) ==> AfterEscapes(s) == s
    ensures LettersThenDigit("ntr1", 3)
  {
    LettersOneByOne(s);
    if |s| > 3 {
      assert |s[3..]| < |s[2..]| < |s[1..]| < |s|;
    }
  }

  lemma LettersOneByOne(s: string)
    ensures LettersThenDigit(s, 1) <==> |s| > 1 && EscapeLetter(s[0]) && IsDigit(s[1])
    ensures LettersThenDigit(s, 2) <==> |s| > 2 && EscapeLetter(s[0]) && EscapeLetter(s[1]) && IsDigit(s[2])
    ensures LettersThenDigit(s, 3)
       <==> |s| > 3 && EscapeLetter(s[0]) && EscapeLetter(s[1]) && EscapeLetter(s[2]) && IsDigit(s[3])
  {
    if |s| > 3 && LettersThenDigit(s, 3) {
      assert EscapeLetter(s[0]) && EscapeLetter(s[1]) && EscapeLetter(s[2]);
    }
    if |s| > 2 && LettersThenDigit(s, 2) {
      assert EscapeLetter(s[0]) && EscapeLetter(s[1]);
    }
    if |s| > 1 && LettersThenDigit(s, 1) {
      assert EscapeLetter(s[0]);
    }
  }

  /** One or two of the letters go from in front of a digit. */
  lemma EscapesGo(e: string, w: string)
    requires (|e| == 1 || |e| == 2) && forall i :: 0 <= i < |e| ==> e[i] == 'n' || e[i] == 't' || e[i] == 'r'
    requires w != "" && '0' <= w[0] <= '9'
    ensures AfterEscapes(e + w) == w
  {
    var s := e + w;
    assert forall i :: 0 <= i < |e| ==> s[i] == e[i];
    assert s[|e|] == w[0] && s[|e|..] == w;
    assert LettersThenDigit(s, |e|);
    LettersOneByOne(s);
  }

  // ------------------------------------------------------ normalize_host_port

  const DEFAULT_HOST: CString := "127.0.0.1"
  const DEFAULT_PORT := 1502

  predicate GoodPort(p: int) {
    0 < p <= 65535
  }

  /** The two environment variables the routine consults. */
  datatype ModbusEnv = ModbusEnv(addr: Option<CString>, port: Option<CString>)

  /** A raw host after the cut to the buffer, the trim and the filter. */
  function Clean(s: string, size: nat): string
    requires size > 0
  {
    Keep(Trim(Cut(s, size)))
  }

  /** The cleaned raw host, else the cleaned host of the environment. */
  function GivenHost(raw: Option<string>, env: ModbusEnv, size: nat): string
    requires size > 0
  {
    var host := Clean(raw.GetOr(""), size);
    if host != "" then host else Clean(env.addr.GetOr(""), size)
  }

  function NormalHost(raw: Option<string>, env: ModbusEnv, size: nat): string
    requires size > 0
  {
    var host := GivenHost(raw, env, size);
    if host != "" then host else Cut(DEFAULT_HOST, size)
  }

  function NormalPort(raw: int, env: ModbusEnv): int {
    if GoodPort(raw) then raw
    else
      var ep := if env.port.Some? then Atoi(env.port.value) else 0;
      if GoodPort(ep) then ep else DEFAULT_PORT
  }

  method NormalizeHostPort(rawHost: Option<CString>, rawPort: int, env: ModbusEnv, out: array<char>)
    returns (port: int)
    requires out.Length > 0
    modifies out
    ensures Holds(out, NormalHost(rawHost, env, out.Length))
    ensures port == NormalPort(rawPort, env)
  {
    PrintGiven(rawHost, env, out);
    if out[0] == '\0' {
      Print(out, DEFAULT_HOST);
    }
    port := PickPort(rawPort, env);
  }

  method PrintGiven(rawHost: Option<CString>, env: ModbusEnv, out: array<char>)
    requires out.Length > 0
    modifies out
    ensures Holds(out, GivenHost(rawHost, env, out.Length))
  {
    CleanOfNothing(out.Length);
    PrintClean(out, rawHost.GetOr(""));
    if out[0] == '\0' {
      if env.addr.Some? && env.addr.value != "" {
        PrintClean(out, env.addr.value);
      }
    }
  }

  /** The three steps both host sources go through. */
  method PrintClean(a: array<char>, s: CString)
    requires a.Length > 0
    modifies a
    ensures Holds(a, Clean(s, a.Length))
  {
    Print(a, s);
    TrimStr(a, Cut(s, a.Length));
    SanitizeHost(a, Trim(Cut(s, a.Length)));
  }

  method PickPort(rawPort: int, env: ModbusEnv) returns (port: int)
    ensures port == NormalPort(rawPort, env)
  {
    port := rawPort;
    if port <= 0 || port > 65535 {
      if env.port.Some? && env.port.value != "" {
        var ep := Atoi(env.port.value);
        if ep > 0 && ep <= 65535 {
          port := ep;
        }
      }
    }
    if port <= 0 || port > 65535 {
      port := DEFAULT_PORT;
    }
  }

  lemma CleanOfNothing(size: nat)
    requires size > 0
    ensures Clean("", size) == ""
  {
  }

  lemma DefaultIsAllowed(size: nat)
    requires size > 0
    ensures AllAllowed(Cut(DEFAULT_HOST, size))
  {
    assert AllAllowed(DEFAULT_HOST);
    assert forall c :: c in Cut(DEFAULT_HOST, size) ==> c in DEFAULT_HOST;
  }

  lemma CleanIsSafe(s: string, size: nat)
    requires size > 0
    ensures AllAllowed(Clean(s, size)) && |Clean(s, size)| < size
  {
    KeepIsAllowed(Trim(Cut(s, size)));
  }

  /** Whatever the inputs, a buffer with room for one character gets a usable host, and
      the port is a TCP port. */
  lemma NormalIsUsable(raw: Option<string>, rawPort: int, env: ModbusEnv, size: nat)
    requires size > 1
    ensures NormalHost(raw, env, size) != "" && AllAllowed(NormalHost(raw, env, size))
    ensures |NormalHost(raw, env, size)| < size
    ensures GoodPort(NormalPort(rawPort, env))
  {
    CleanIsSafe(raw.GetOr(""), size);
    CleanIsSafe(env.addr.GetOr(""), size);
    DefaultIsAllowed(size);
  }

  /** Normalising a normal form changes nothing, for every environment and buffer. */
  lemma NormalIsIdempotent(raw: Option<string>, rawPort: int, env: ModbusEnv, size: nat)
    requires size > 0
    ensures NormalHost(Some(NormalHost(raw, env, size)), env, size) == NormalHost(raw, env, size)
    ensures NormalPort(NormalPort(rawPort, env), env) == NormalPort(rawPort, env)
  {
    var host := NormalHost(raw, env, size);
    if size > 1 {
      NormalIsUsable(raw, rawPort, env, size);
      TrimIsRedundant(host);
      KeepFixes(host);
    }
  }

  /** Cleaning leaves an allowed text that fits as it is, and removes one without allowed characters. */
  lemma CleanOfAllowed(s: string, size: nat)
    requires size > 0
    ensures AllAllowed(s) && |s| < size ==> Clean(s, size) == s
    ensures (forall c :: c in s ==> !Allowed(c)) ==> Clean(s, size) == ""
  {
    TrimIsRedundant(Cut(s, size));
    KeepFixes(Cut(s, size));
    if forall c :: c in s ==> !Allowed(c) {
      assert forall c :: c in Cut(s, size) ==> c in s;
      KeepOfNone(Cut(s, size));
    }
  }

  lemma {:induction false} KeepOfNone(s: string)
    requires forall c :: c in s ==> !Allowed(c)
    ensures Keep(s) == ""
  {
    if s != "" {
      assert s[|s| - 1] in s;
      KeepOfNone(s[..|s| - 1]);
    }
  }

  /** Which host is taken: an allowed one that fits as it was given; where the given one has no allowed
      character, that of the environment; else 127.0.0.1. */
  lemma HostPrecedence(raw: string, env: ModbusEnv, size: nat)
    requires size > 9
    ensures raw != "" && AllAllowed(raw) && |raw| < size ==> NormalHost(Some(raw), env, size) == raw
    ensures (forall c :: c in raw ==> !Allowed(c)) && env.addr.Some? && env.addr.value != "" && AllAllowed(env.addr.value) && |env.addr.value| < size
      ==> NormalHost(Some(raw), env, size) == env.addr.value
    ensures (forall c :: c in raw ==> !Allowed(c)) && env.addr.None? ==> NormalHost(Some(raw), env, size) == "127.0.0.1"
  {
    CleanOfAllowed(raw, size);
    CleanOfAllowed(env.addr.GetOr(""), size);
    hide Clean;
  }

  /** Likewise for the port: a given one in 1..65535, else one in the environment, else 1502. */
  lemma PortPrecedence(raw: int, env: ModbusEnv, n: int)
    ensures 1 <= raw <= 65535 ==> NormalPort(raw, env) == raw
    ensures !(1 <= raw <= 65535) && 1 <= n <= 65535 && env.port == Some(Decimal(n)) ==> NormalPort(raw, env) == n
    ensures !(1 <= raw <= 65535) && env.port.None? ==> NormalPort(raw, env) == 1502
  {
    if 1 <= n <= 65535 {
      AtoiUndoesDecimal(n);
    }
    hide Atoi, Decimal;
  }
}
