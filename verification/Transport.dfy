/**
 * Alternative transports of an address (node/node_p2p.go): plain TCP on a port and WebSocket on the next. Port
 * numbers are 64-bit integers.
 */
module Transport {
  import opened Common

  const TCP_MARK: string := "/tcp/"
  const WS_MARK: string := "/ws"

  // ---------- strings ----------

  predicate OccursAt(s: string, sub: string, i: nat) {
    i + |sub| <= |s| && s[i..i + |sub|] == sub
  }

  /** The first position from i on at which sub occurs, or -1. */
  function IndexFrom(s: string, sub: string, i: nat): (pos: int)
    ensures pos >= 0 ==> i <= pos && OccursAt(s, sub, pos) && forall j :: i <= j < pos ==> !OccursAt(s, sub, j)
    ensures pos < 0 ==> pos == -1 && forall j :: i <= j ==> !OccursAt(s, sub, j)
    decreases |s| - i
  {
    if i + |sub| > |s| then -1 else if s[i..i + |sub|] == sub then i else IndexFrom(s, sub, i + 1)
  }

  function Index(s: string, sub: string): int {
    IndexFrom(s, sub, 0)
  }

  predicate Contains(s: string, sub: string) {
    Index(s, sub) >= 0
  }

  /** strings.Replace(s, sub, "", 1). */
  function WithoutFirst(s: string, sub: string): string {
    var i := Index(s, sub);
    if i < 0 then s else s[..i] + s[i + |sub|..]
  }

  lemma IndexIs(s: string, sub: string, i: nat)
    requires OccursAt(s, sub, i) && forall j :: 0 <= j < i ==> !OccursAt(s, sub, j)
    ensures Index(s, sub) == i
  {
  }

  // ---------- decimal numbers ----------

  predicate IsDigit(c: char) {
    '0' <= c <= '9'
  }

  predicate AllDigits(s: string) {
    forall i :: 0 <= i < |s| ==> IsDigit(s[i])
  }

  function DigitValue(c: char): (d: nat)
    requires IsDigit(c)
    ensures d < 10
  {
    c as int - '0' as int
  }

  function DigitChar(d: nat): (c: char)
    requires d < 10
    ensures IsDigit(c) && DigitValue(c) == d
  {
    ('0' as int + d) as char
  }

  function Value(s: string): nat
    requires AllDigits(s)
  {
    if s == "" then 0 else 10 * Value(s[..|s| - 1]) + DigitValue(s[|s| - 1])
  }

  function NatText(n: nat): (s: string)
    ensures s != "" && AllDigits(s)
  {
    if n < 10 then [DigitChar(n)] else NatText(n / 10) + [DigitChar(n % 10)]
  }

  /** strconv.Itoa. */
  function Itoa(n: int): string {
    if n < 0 then "-" + NatText(-n) else NatText(n)
  }

  /** strconv.Atoi of a run of digits: an error if there is none or the number is out of range. */
  function Atoi(s: string): Option<int>
    requires AllDigits(s)
  {
    if s == "" || Value(s) > MAX_INT64 then None else Some(Value(s))
  }

  function Plus(a: int, b: int): int {
    Wrap64(a + b)
  }

  lemma {:induction false} ValueOfText(n: nat)
    ensures Value(NatText(n)) == n
  {
    var s := NatText(n);
    if n >= 10 {
      ValueOfText(n / 10);
      assert s[..|s| - 1] == NatText(n / 10);
    }
  }

  /** A port as Itoa writes it. */
  predicate Canonical(digits: string) {
    |digits| == 1 || (|digits| > 1 && digits[0] != '0')
  }

  lemma {:induction false} TextIsCanonical(n: nat)
    ensures Canonical(NatText(n)) && (n > 0 ==> NatText(n)[0] != '0')
  {
    if n >= 10 {
      TextIsCanonical(n / 10);
      assert NatText(n)[0] == NatText(n / 10)[0];
    }
  }

  lemma {:induction false} TextOfValue(digits: string)
    requires AllDigits(digits) && digits != ""
    ensures NatText(Value(digits)) == digits <==> Canonical(digits)
    ensures digits[0] != '0' ==> Value(digits) > 0
  {
    var n := |digits| - 1;
    if n == 0 {
      assert digits[..0] == "";
    } else if digits[0] != '0' {
      TextOfValue(digits[..n]);
      assert Value(digits) / 10 == Value(digits[..n]) && Value(digits) % 10 == DigitValue(digits[n]);
      assert digits == digits[..n] + [digits[n]];
    } else {
      TextIsCanonical(Value(digits));
    }
  }

  // ---------- the alternatives ----------

  /** The end of the run of digits that starts at i. */
  function DigitsEnd(s: string, i: nat): (end: nat)
    requires i <= |s|
    ensures i <= end <= |s|
    ensures AllDigits(s[i..end])
    ensures end < |s| ==> !IsDigit(s[end])
    decreases |s| - i
  {
    if i < |s| && IsDigit(s[i]) then
      var end := DigitsEnd(s, i + 1);
      assert s[i..end] == [s[i]] + s[i + 1..end];
      end
    else i
  }

  function Expand(addr: string): (r: seq<string>)
    ensures 1 <= |r| <= 2 && r[0] == addr
  {
    var i := Index(addr, TCP_MARK);
    if i < 0 then [addr]
    else
      var start := i + |TCP_MARK|;
      var end := DigitsEnd(addr, start);
      match Atoi(addr[start..end])
      case None => [addr]
      case Some(port) =>
        if Contains(addr, WS_MARK)
        then [addr, addr[..start] + Itoa(Plus(port, -1)) + WithoutFirst(addr[end..], WS_MARK)]
        else [addr, addr[..start] + Itoa(Plus(port, 1)) + WS_MARK + addr[end..]]
  }

  method ExpandTransportAlternatives(addr: string) returns (result: seq<string>)
    ensures result == Expand(addr)
  {
    hide Index, Contains, WithoutFirst, Value, NatText, Itoa, Plus;
    result := [addr];
    var i := Index(addr, TCP_MARK);
    if i < 0 {
      return;
    }
    IndexBounds(addr, TCP_MARK);
    var start := i + |TCP_MARK|;
    var end := ScanDigits(addr, start);
    hide DigitsEnd, AllDigits;
    var port := Atoi(addr[start..end]);
    if port.None? {
      return;
    }
    var prefix, suffix := addr[..start], addr[end..];
    if Contains(addr, WS_MARK) {
      result := result + [prefix + Itoa(Plus(port.value, -1)) + WithoutFirst(suffix, WS_MARK)];
    } else {
      result := result + [prefix + Itoa(Plus(port.value, 1)) + WS_MARK + suffix];
    }
  }

  lemma IndexBounds(s: string, sub: string)
    requires Index(s, sub) >= 0
    ensures Index(s, sub) + |sub| <= |s|
  {
  }

  method ScanDigits(addr: string, start: nat) returns (end: nat)
    requires start <= |addr|
    ensures end == DigitsEnd(addr, start)
  {
    end := start;
    while end < |addr| && IsDigit(addr[end])
      invariant start <= end <= |addr|
      invariant DigitsEnd(addr, start) == DigitsEnd(addr, end)
    {
      end := end + 1;
    }
  }

  /** The digits after the first mark. */
  function PortText(addr: string): (digits: string)
    ensures AllDigits(digits)
  {
    var i := Index(addr, TCP_MARK);
    if i < 0 then "" else addr[i + |TCP_MARK|..DigitsEnd(addr, i + |TCP_MARK|)]
  }

  lemma DigitsEndIs(s: string, i: nat, end: nat)
    requires i <= end <= |s| && AllDigits(s[i..end]) && (end < |s| ==> !IsDigit(s[end]))
    ensures DigitsEnd(s, i) == end
    decreases end - i
  {
    if i < end {
      assert IsDigit(s[i..end][0]);
      var digits, more := s[i..end], s[i + 1..end];
      assert forall j :: 0 <= j < |more| ==> more[j] == digits[j + 1];
      DigitsEndIs(s, i + 1, end);
    }
  }

  /** The mark is still first found where it was when only what follows it changes. */
  lemma SameMark(addr: string, other: string)
    requires Index(addr, TCP_MARK) >= 0
    requires var start := Index(addr, TCP_MARK) + |TCP_MARK|; start <= |other| && other[..start] == addr[..start]
    ensures Index(other, TCP_MARK) == Index(addr, TCP_MARK)
  {
    var i := Index(addr, TCP_MARK);
    var start := i + |TCP_MARK|;
    forall j | 0 <= j <= i ensures OccursAt(other, TCP_MARK, j) == OccursAt(addr, TCP_MARK, j) {
      SameWindow(addr, other, start, j, |TCP_MARK|);
    }
    hide OccursAt;
    IndexIs(other, TCP_MARK, i);
  }

  lemma SameWindow(a: string, b: string, n: nat, j: nat, k: nat)
    requires n <= |a| && n <= |b| && a[..n] == b[..n] && j + k <= n
    ensures a[j..j + k] == b[j..j + k]
  {
    assert a[j..j + k] == a[..n][j..j + k];
    assert b[j..j + k] == b[..n][j..j + k];
  }

  /** An address in three parts: up to and with the first mark, digits, and the rest. */
  lemma Parts(head: string, digits: string, rest: string)
    requires |head| >= 5 && Index(head, TCP_MARK) == |head| - 5
    requires AllDigits(digits) && (rest != "" ==> !IsDigit(rest[0]))
    ensures var addr := head + digits + rest;
            && Index(addr, TCP_MARK) == |head| - 5
            && DigitsEnd(addr, |head|) == |head| + |digits|
            && addr[..|head|] == head && addr[|head|..|head| + |digits|] == digits && addr[|head| + |digits|..] == rest
  {
    var addr := head + digits + rest;
    ThreeParts(head, digits, rest);
    assert head == head[..|head|];
    hide Index, DigitsEnd;
    SameMark(head, addr);
    DigitsEndIs(addr, |head|, |head| + |digits|);
  }

  lemma ThreeParts(a: string, b: string, c: string)
    ensures var s := a + b + c;
            && |s| == |a| + |b| + |c| && s[..|a|] == a && s[|a|..|a| + |b|] == b && s[|a| + |b|..] == c
  {
  }

  lemma WebSocketMark(front: string, tail: string)
    ensures Contains(front + WS_MARK + tail, WS_MARK)
    ensures WithoutFirst(WS_MARK + tail, WS_MARK) == tail
  {
    var s := front + WS_MARK + tail;
    assert s[|front|..|front| + 3] == WS_MARK && OccursAt(s, WS_MARK, |front|);
    assert OccursAt(WS_MARK + tail, WS_MARK, 0);
  }

  /** What an address in three parts expands to. */
  lemma ExpandParts(head: string, digits: string, rest: string)
    requires |head| >= 5 && Index(head, TCP_MARK) == |head| - 5
    requires AllDigits(digits) && (rest != "" ==> !IsDigit(rest[0]))
    ensures var addr, port := head + digits + rest, Atoi(digits);
            Expand(addr) == if port.None? then [addr]
                            else if Contains(addr, WS_MARK)
                            then [addr, head + Itoa(Plus(port.value, -1)) + WithoutFirst(rest, WS_MARK)]
                            else [addr, head + Itoa(Plus(port.value, 1)) + WS_MARK + rest]
  {
    hide Index, DigitsEnd, Atoi, Contains, WithoutFirst, Itoa, Plus, AllDigits, IsDigit;
    Parts(head, digits, rest);
  }

  /** Expanding an address of this shape, whose port is in range, takes the port one down and the mark away. */
  lemma ExpandWebSocket(head: string, port: nat, tail: string)
    requires port <= MAX_INT64 && |head| >= 5 && Index(head, TCP_MARK) == |head| - 5
    ensures var ws := head + NatText(port) + WS_MARK + tail;
            Expand(ws) == [ws, head + Itoa(Plus(port, -1)) + tail]
  {
    ReadsPort(port);
    MarkIsNoDigit(tail);
    hide *;
    ExpandParts(head, NatText(port), WS_MARK + tail);
    assert head + NatText(port) + WS_MARK + tail == head + NatText(port) + (WS_MARK + tail);
    WebSocketMark(head + NatText(port), tail);
  }

  lemma ReadsPort(port: nat)
    requires port <= MAX_INT64
    ensures Atoi(NatText(port)) == Some(port)
  {
    ValueOfText(port);
  }

  lemma MarkIsNoDigit(tail: string)
    ensures WS_MARK + tail != "" && !IsDigit((WS_MARK + tail)[0])
  {
  }

  /** With a negative port there is nothing to undo. */
  lemma ExpandNegative(head: string, port: int, tail: string)
    requires port < 0 && |head| >= 5 && Index(head, TCP_MARK) == |head| - 5
    ensures var ws := head + Itoa(port) + WS_MARK + tail; Expand(ws) == [ws]
  {
    var rest := Itoa(port) + WS_MARK + tail;
    assert Itoa(port)[0] == rest[0] == '-' && !IsDigit('-') && Atoi("") == None;
    hide *;
    assert head + Itoa(port) + WS_MARK + tail == head + "" + rest;
    ExpandParts(head, "", rest);
  }

  /** What an address without the WebSocket mark expands to. */
  lemma ExpandPlain(addr: string) returns (head: string, digits: string, tail: string)
    requires !Contains(addr, WS_MARK) && |Expand(addr)| == 2
    ensures addr == head + digits + tail && AllDigits(digits) && digits == PortText(addr) != ""
    ensures Value(digits) <= MAX_INT64
    ensures |head| >= 5 && Index(head, TCP_MARK) == |head| - 5
    ensures Expand(addr)[1] == head + Itoa(Plus(Value(digits), 1)) + WS_MARK + tail
  {
    hide Index, DigitsEnd, Value, Contains, WithoutFirst, Itoa, Plus, OccursAt, NatText, AllDigits;
    IndexBounds(addr, TCP_MARK);
    var start := Index(addr, TCP_MARK) + |TCP_MARK|;
    var end := DigitsEnd(addr, start);
    head, digits, tail := addr[..start], addr[start..end], addr[end..];
    assert head[..|head|] == addr[..start];
    SameMark(addr, head);
    assert addr == head + digits + tail;
  }

  lemma PortTexts(port: nat)
    requires port < MAX_INT64
    ensures Itoa(Plus(port, 1)) == NatText(port + 1) && Itoa(Plus(port + 1, -1)) == NatText(port)
  {
    hide NatText;
  }

  /**
   * Undoing the WebSocket alternative: for an address without the mark, expanding its alternative leads back to it
   * exactly when the port is written without leading zeros and is not the greatest integer.
   */
  lemma AlternativeUndone(addr: string)
    ensures !Contains(addr, WS_MARK) && |Expand(addr)| == 2 ==>
              (addr in Expand(Expand(addr)[1]) <==> Canonical(PortText(addr)) && Value(PortText(addr)) != MAX_INT64)
  {
    if !Contains(addr, WS_MARK) && |Expand(addr)| == 2 {
      UndoneIff(addr);
    }
  }

  lemma UndoneIff(addr: string)
    requires !Contains(addr, WS_MARK) && |Expand(addr)| == 2
    ensures addr in Expand(Expand(addr)[1]) <==> Canonical(PortText(addr)) && Value(PortText(addr)) != MAX_INT64
  {
    hide *;
    var head, digits, tail := ExpandPlain(addr);
    var port := Value(digits);
    WebSocketMark(head + Itoa(Plus(port, 1)), tail);
    TextOfValue(digits);
    if port < MAX_INT64 {
      PortTexts(port);
      ExpandWebSocket(head, port + 1, tail);
      SameMiddle(head, NatText(port), digits, tail);
    } else {
      GreatestWraps();
      ExpandNegative(head, Plus(port, 1), tail);
    }
  }

  lemma GreatestWraps()
    ensures Plus(MAX_INT64, 1) < 0
  {
  }

  lemma SameMiddle(head: string, a: string, b: string, tail: string)
    ensures head + a + tail == head + b + tail <==> a == b
  {
    var x, y := head + a + tail, head + b + tail;
    if x == y {
      assert |a| == |b|;
      assert a == x[|head|..|head| + |a|] == y[|head|..|head| + |a|] == b;
    }
  }
}
