/** The egress proxy (`egress_proxy.py`): which CONNECT is let through. */
module EgressProxy {
  import opened Results
  import opened PyText

  type Host = string
  type Address = string

  const ALLOWED_HOSTS := {"api.openai.com", "api.anthropic.com", "api.voyageai.com"}
  const ALLOWED_PORT := 443

  // ------------------------------------------------------------------- the authority

  /** Where the last `c` is, or -1. */
  function FindLast(s: string, c: char): (n: int)
    ensures -1 <= n < |s|
    ensures n >= 0 ==> s[n] == c && c !in s[n + 1..]
    ensures n < 0 ==> c !in s
  {
    if s == "" then -1
    else if s[|s| - 1] == c then |s| - 1
    else
      var n := FindLast(s[..|s| - 1], c);
      assert n >= 0 ==> s[n + 1..] == s[..|s| - 1][n + 1..] + [s[|s| - 1]];
      n
  }

  /** `str.isdigit` of one character of Latin-1: the ten digits and three superscripts. */
  predicate IsDigit(c: char) {
    '0' <= c <= '9' || c == '\U{B2}' || c == '\U{B3}' || c == '\U{B9}'
  }

  predicate AllDigits(s: string) {
    s != "" && forall c <- s :: IsDigit(c)
  }

  /** The most digits `int()` converts. */
  const MAX_DIGITS := 4300

  function DropDot(host: string): string {
    if EndsWith(host, '.') then host[..|host| - 1] else host
  }

  datatype Raise = ValueError

  /** `parse_authority`. Text is Latin-1; `isAddress` is whether `ipaddress` parses it. */
  function ParseAuthority(target: string, isAddress: string -> bool): Result<Option<(Host, int)>, Raise> {
    var n := FindLast(target, ':');
    if n <= 0 then Ok(None)
    else
      var host, port := target[..n], target[n + 1..];
      if !AllDigits(port) || '@' in host || '[' in host || '/' in host then Ok(None)
      else
        var name := DropDot(Lower(host));
        if isAddress(name) then Ok(None)
        // int() stands in the handler of the expected ValueError, so its own escapes
        else if !PlainDigits(port) || |port| > MAX_DIGITS then Raised(ValueError)
        else Ok(Some((name, IntOf(port))))
  }

  /** A name that can be on the list: not an address, no dot at its end, none of the refused characters. */
  predicate ProperName(h: Host, isAddress: string -> bool) {
    h != "" && !isAddress(h) && !EndsWith(h, '.') && '@' !in h && '[' !in h && '/' !in h
  }

  /** So are the names the service lists: it serves every spelling of them. */
  lemma {:induction false} ListedNamesAreProper(h: Host, isAddress: string -> bool)
    requires h in {"api.openai.com", "api.anthropic.com", "api.voyageai.com"} && !isAddress(h)
    ensures ProperName(h, isAddress)
  {
  }

  predicate Spells(host: string, port: string, h: Host, p: int) {
    && (Lower(host) == h || Lower(host) == h + ".")
    && port != "" && (forall c <- port :: '0' <= c <= '9') && |port| <= 4300 && IntOf(port) == p
  }

  lemma {:induction false} LastIs(s: string, c: char, k: nat)
    requires k < |s| && s[k] == c && c !in s[k + 1..]
    ensures FindLast(s, c) == k
    decreases |s|
  {
    if k < |s| - 1 {
      var shorter := s[..|s| - 1];
      assert s[k + 1..] == shorter[k + 1..] + [s[|s| - 1]];
      LastIs(shorter, c, k);
    }
  }

  lemma {:induction false} LastColon(host: string, port: string)
    requires ':' !in port
    ensures FindLast(host + ":" + port, ':') == |host|
  {
    var s := host + ":" + port;
    assert s[|host|] == ':' && s[|host| + 1..] == port;
    LastIs(s, ':', |host|);
  }

  lemma {:induction false} LowerKeepsMarks(host: string)
    ensures '@' in host <==> '@' in Lower(host)
    ensures '[' in host <==> '[' in Lower(host)
    ensures '/' in host <==> '/' in Lower(host)
  {
    forall c | LowerChar(c) == c && (c == '@' || c == '[' || c == '/') ensures c in host <==> c in Lower(host) {
      if c in host {
        var i :| 0 <= i < |host| && host[i] == c;
        assert Lower(host)[i] == c;
      }
      if c in Lower(host) {
        var i :| 0 <= i < |host| && Lower(host)[i] == c;
        assert LowerChar(host[i]) == c;
      }
    }
  }

  lemma {:induction false} DotDropped(host: string, h: Host)
    requires !EndsWith(h, '.')
    ensures DropDot(host) == h <==> host == h || host == h + "."
  {
    if EndsWith(host, '.') {
      assert host == host[..|host| - 1] + ".";
    }
    if host == h + "." {
      assert host[|h|] == '.';
    }
  }

  /** Exactly what is taken for `h:p`: any spelling of `h` in capitals or not, with or without one dot at its end, and
      `p` in plain digits, with leading zeros if need be. */
  lemma {:induction false} AuthorityIsExactly(target: string, isAddress: string -> bool, h: Host, p: int)
    requires ProperName(h, isAddress)
    ensures ParseAuthority(target, isAddress) == Ok(Some((h, p))) <==>
              exists host, port :: target == host + ":" + port && Spells(host, port, h, p)
  {
    hide Lower, IntOf;
    if ParseAuthority(target, isAddress) == Ok(Some((h, p))) {
      var n := FindLast(target, ':');
      var host, port := target[..n], target[n + 1..];
      assert target == host + ":" + port;
      DotDropped(Lower(host), h);
      assert Spells(host, port, h, p);
    }
    if host, port :| target == host + ":" + port && Spells(host, port, h, p) {
      SpellingIsParsed(host, port, isAddress, h, p);
    }
  }

  lemma {:induction false} SpellingIsParsed(host: string, port: string, isAddress: string -> bool, h: Host, p: int)
    requires ProperName(h, isAddress) && Spells(host, port, h, p)
    ensures ParseAuthority(host + ":" + port, isAddress) == Ok(Some((h, p)))
  {
    hide Lower, IntOf, FindLast, DropDot;
    SpelledHost(host, port, isAddress, h, p);
    LastColon(host, port);
    var target := host + ":" + port;
    assert target[..|host|] == host && target[|host| + 1..] == port;
    assert AllDigits(port);
  }

  /** A spelling of a proper name has none of the refused characters and comes down to the name. */
  lemma {:induction false} SpelledHost(host: string, port: string, isAddress: string -> bool, h: Host, p: int)
    requires ProperName(h, isAddress) && Spells(host, port, h, p)
    ensures host != "" && '@' !in host && '[' !in host && '/' !in host && DropDot(Lower(host)) == h
    ensures ':' !in port
  {
    hide Lower, IntOf, DropDot;
    DotDropped(Lower(host), h);
    LowerKeepsMarks(host);
    assert |Lower(host)| == |host|;
    assert forall c <- h + "." :: c in h || c == '.';
  }

  /** A port the check for digits lets through but `int()` does not convert: such a CONNECT raises. */
  lemma {:induction false} ParseRaisesExactly(host: string, port: string, isAddress: string -> bool)
    requires host != "" && ':' !in port
    ensures ParseAuthority(host + ":" + port, isAddress).Raised? <==>
              && port != "" && (forall c <- port :: '0' <= c <= '9' || c == '\U{B2}' || c == '\U{B3}' || c == '\U{B9}')
              && '@' !in host && '[' !in host && '/' !in host
              && !isAddress(if host[|host| - 1] == '.' then Lower(host)[..|host| - 1] else Lower(host))
              && (|port| > 4300 || exists c <- port :: c == '\U{B2}' || c == '\U{B3}' || c == '\U{B9}')
  {
    hide Lower, IntOf, FindLast;
    LastColon(host, port);
    var target := host + ":" + port;
    assert target[..|host|] == host && target[|host| + 1..] == port;
    DropsDot(host);
  }

  /** And what is refused: no host before the last colon, a port that is not all digits, or a host that is an address or has one
      of three characters. */
  lemma {:induction false} ParseRefusesExactly(target: string, host: string, port: string, isAddress: string -> bool)
    requires ':' !in port
    ensures ':' !in target ==> ParseAuthority(target, isAddress) == Ok(None)
    ensures ParseAuthority(host + ":" + port, isAddress) == Ok(None) <==>
      || host == "" || port == ""
      || (exists c <- port :: !('0' <= c <= '9') && c != '\U{B2}' && c != '\U{B3}' && c != '\U{B9}')
      || '@' in host || '[' in host || '/' in host
      || isAddress(if host[|host| - 1] == '.' then Lower(host)[..|host| - 1] else Lower(host))
  {
    hide Lower, IntOf, FindLast;
    assert ':' !in target ==> FindLast(target, ':') < 0;
    LastColon(host, port);
    var whole := host + ":" + port;
    assert whole[..|host|] == host && whole[|host| + 1..] == port;
    if host != "" {
      DropsDot(host);
    }
  }

  lemma {:induction false} DropsDot(host: string)
    requires host != ""
    ensures DropDot(Lower(host)) == if host[|host| - 1] == '.' then Lower(host)[..|host| - 1] else Lower(host)
  {
    assert LowerChar(host[|host| - 1]) == '.' <==> host[|host| - 1] == '.';
  }

  lemma {:induction false} SpelledPort(host: string, port: string, h: Host, p: int)
    requires Spells(host, port, h, p)
    ensures ' ' !in port
  {
  }

  lemma {:induction false} JoinThree(parts: seq<string>, sep: string)
    requires |parts| == 3
    ensures Join(parts, sep) == parts[0] + sep + parts[1] + sep + parts[2]
  {
    assert parts[1..][1..] == [parts[2]] && Join([parts[2]], sep) == parts[2];
    assert Join(parts[1..], sep) == parts[1] + sep + parts[2];
    assert Join(parts, sep) == parts[0] + sep + (parts[1] + sep + parts[2]);
  }

  lemma {:induction false} SplitThree(a: string, b: string, c: string)
    requires ' ' !in a && ' ' !in b && ' ' !in c
    ensures SplitOn(a + " " + b + " " + c, ' ') == [a, b, c]
  {
    hide SplitOn;
    SplitOnFirst(c, ' ', "");
    SplitOnFirst(b, ' ', c);
    SplitOnFirst(a, ' ', b + [' '] + c);
    assert a + " " + b + " " + c == a + [' '] + (b + [' '] + c);
  }

  // ------------------------------------------------------------------- one connection

  /** What reading the request head came to; `line` is its first line, decoded. */
  datatype Head = NoHead | Line(line: string)

  datatype Refusal = NotConnect | HostNotAllowed | NotResolved | NotPublic | Unreachable

  /** What was done for the connection, in order. */
  datatype Effect = Resolve(host: Host, port: int) | Connect(address: Address, port: int) | Refuse(why: Refusal) | Tunnel

  datatype Resolution = Resolved(addresses: seq<Address>) | ResolveFailed

  class EgressProxy {
    const allowedHosts: set<Host>
    const allowedPort: int
    const addressAllowed: Address -> bool
    const isAddress: string -> bool

    constructor (allowedHosts: set<Host>, allowedPort: int, addressAllowed: Address -> bool, isAddress: string -> bool)
      ensures this.allowedHosts == allowedHosts && this.allowedPort == allowedPort
      ensures this.addressAllowed == addressAllowed && this.isAddress == isAddress
    {
      this.allowedHosts, this.allowedPort, this.addressAllowed, this.isAddress :=
        allowedHosts, allowedPort, addressAllowed, isAddress;
    }

    /** The proxy as the service starts it. */
    constructor Default(addressAllowed: Address -> bool, isAddress: string -> bool)
      ensures allowedHosts == {"api.openai.com", "api.anthropic.com", "api.voyageai.com"} && allowedPort == 443
      ensures this.addressAllowed == addressAllowed && this.isAddress == isAddress
    {
      allowedHosts, allowedPort := ALLOWED_HOSTS, ALLOWED_PORT;
      this.addressAllowed, this.isAddress := addressAllowed, isAddress;
    }

    /** The authority of a request line that may be resolved, if it is one. */
    function Admitted(line: string): Option<(Host, int)> {
      var parts := SplitOn(line, ' ');
      if |parts| != 3 || parts[0] != "CONNECT" || !StartsWith(parts[2], "HTTP/1.") then None
      else match ParseAuthority(parts[1], isAddress)
        case Ok(Some((host, port))) => if host in allowedHosts && port == allowedPort then Some((host, port)) else None
        case _ => None
    }

    predicate IsConnect(line: string) {
      var parts := SplitOn(line, ' ');
      |parts| == 3 && parts[0] == "CONNECT" && StartsWith(parts[2], "HTTP/1.")
    }

    /** The request lines that are let through to the resolver: `CONNECT`, a spelling of a listed name with the one port, and a
        version of HTTP/1, between single blanks. */
    lemma {:induction false} AdmittedIff(line: string, h: Host)
      requires ProperName(h, isAddress)
      ensures (exists p :: Admitted(line) == Some((h, p))) <==>
        && h in allowedHosts
        && exists host, port, minor ::
             && line == "CONNECT " + (host + ":" + port) + " " + ("HTTP/1." + minor)
             && ' ' !in host && ' ' !in minor && Spells(host, port, h, allowedPort)
    {
      if p :| Admitted(line) == Some((h, p)) {
        AdmittedIsSpelled(line, h, p);
      }
      if h in allowedHosts {
        if host, port, minor :|
            && line == "CONNECT " + (host + ":" + port) + " " + ("HTTP/1." + minor)
            && ' ' !in host && ' ' !in minor && Spells(host, port, h, allowedPort) {
          SpelledIsAdmitted(line, h, host, port, minor);
        }
      }
    }

    lemma {:induction false} AdmittedIsSpelled(line: string, h: Host, p: int)
      requires ProperName(h, isAddress) && Admitted(line) == Some((h, p))
      ensures h in allowedHosts
      ensures exists host, port, minor ::
        && line == "CONNECT " + (host + ":" + port) + " " + ("HTTP/1." + minor)
        && ' ' !in host && ' ' !in minor && Spells(host, port, h, allowedPort)
    {
      hide ParseAuthority, Spells, SplitOn, ProperName;
      var parts := SplitOn(line, ' ');
      SplitOnIs(line, ' ');
      AuthorityIsExactly(parts[1], isAddress, h, p);
      var host, port :| parts[1] == host + ":" + port && Spells(host, port, h, p);
      var minor := parts[2][7..];
      JoinThree(parts, " ");
      assert parts[1] in parts && parts[2] in parts;
      assert parts[2] == "HTTP/1." + minor;
      assert ' ' !in host && ' ' !in minor;
      assert "CONNECT" + " " == "CONNECT ";
      assert line == "CONNECT " + (host + ":" + port) + " " + ("HTTP/1." + minor);
    }

    lemma {:induction false} SpelledIsAdmitted(line: string, h: Host, host: string, port: string, minor: string)
      requires ProperName(h, isAddress) && h in allowedHosts
      requires line == "CONNECT " + (host + ":" + port) + " " + ("HTTP/1." + minor)
      requires ' ' !in host && ' ' !in minor && Spells(host, port, h, allowedPort)
      ensures Admitted(line) == Some((h, allowedPort))
    {
      hide ParseAuthority, Spells, SplitOn, ProperName;
      var target := host + ":" + port;
      SpelledPort(host, port, h, allowedPort);
      SplitThree("CONNECT", target, "HTTP/1." + minor);
      AuthorityIsExactly(target, isAddress, h, allowedPort);
      assert line == "CONNECT" + " " + target + " " + ("HTTP/1." + minor);
      assert StartsWith("HTTP/1." + minor, "HTTP/1.");
    }

    /** `_handle` up to the tunnel. `resolution` and `reachable` are what the resolver and the connection attempt will
        come to; `raised` is an exception, after which the connection is closed with no answer. */
    method Handle(head: Head, resolution: Resolution, reachable: bool) returns (effects: seq<Effect>, raised: bool)
      ensures Tunnel in effects <==>
                && head.Line? && Admitted(head.line).Some? && resolution.Resolved? && resolution.addresses != []
                && (forall a <- resolution.addresses :: addressAllowed(a)) && reachable
      ensures raised <==>
                && head.Line? && |SplitOn(head.line, ' ')| == 3 && SplitOn(head.line, ' ')[0] == "CONNECT"
                && StartsWith(SplitOn(head.line, ' ')[2], "HTTP/1.")
                && ParseAuthority(SplitOn(head.line, ' ')[1], isAddress).Raised?
      ensures head.NoHead? || raised <==> effects == []
      ensures head.Line? && !raised && Admitted(head.line) == None ==>
                effects == [Refuse(if IsConnect(head.line) then HostNotAllowed else NotConnect)]
      ensures head.Line? && Admitted(head.line) != None ==>
                var (host, port) := Admitted(head.line).value;
                && port == allowedPort && host in allowedHosts
                && effects ==
                     if resolution == ResolveFailed then [Resolve(host, port), Refuse(NotResolved)]
                     else if resolution.addresses == [] || exists a <- resolution.addresses :: !addressAllowed(a)
                     then [Resolve(host, port), Refuse(NotPublic)]
                     else if !reachable then [Resolve(host, port), Connect(resolution.addresses[0], port), Refuse(Unreachable)]
                     else [Resolve(host, port), Connect(resolution.addresses[0], port), Tunnel]
    {
      hide ParseAuthority, SplitOn;
      if head.NoHead? {
        return [], false;
      }
      var parts := SplitOn(head.line, ' ');
      if |parts| != 3 || parts[0] != "CONNECT" || !StartsWith(parts[2], "HTTP/1.") {
        return [Refuse(NotConnect)], false;
      }
      var authority := ParseAuthority(parts[1], isAddress);
      if authority.Raised? {
        return [], true;
      }
      if authority.value.None? || authority.value.value.0 !in allowedHosts || authority.value.value.1 != allowedPort {
        return [Refuse(HostNotAllowed)], false;
      }
      var (host, port) := authority.value.value;
      effects := [Resolve(host, port)];
      if resolution.ResolveFailed? {
        return effects + [Refuse(NotResolved)], false;
      }
      var addresses := resolution.addresses;
      if addresses == [] || exists a <- addresses :: !addressAllowed(a) {
        return effects + [Refuse(NotPublic)], false;
      }
      effects := effects + [Connect(addresses[0], port)];
      if !reachable {
        return effects + [Refuse(Unreachable)], false;
      }
      effects, raised := effects + [Tunnel], false;
    }
  }
}
