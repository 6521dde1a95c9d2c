/** The controller's onboarding flow: fetch a verification code from the
    central server's connect page, register it, poll until the server hands
    out a device token, then open the command socket; plus the status page
    and the rule that turns a local command's exit into a reply. HTTP,
    timers and process spawning are outside the model: what they returned
    is passed in. */
module Onboarding {
  import opened Text

  // -----------------------------------------------------------------------
  // The verification-code pattern
  //   <div\s+id="verification-code">\s*([\dA-Za-z]+)\s*<\/div>   (flag i)

  /** A character of the captured group `[\dA-Za-z]`. */
  predicate IsCodeChar(c: char) {
    ('0' <= c <= '9') || ('A' <= c <= 'Z') || ('a' <= c <= 'z')
  }

  predicate IsCode(s: string) {
    s != [] && forall i :: 0 <= i < |s| ==> IsCodeChar(s[i])
  }

  const OpenTag := "<div"
  const IdAttr := "id=\"verification-code\">"
  const CloseTag := "</div>"

  /** `s` holds the lower-case literal `lit` at `i`, letters compared without
      regard to case (the `i` flag; for ASCII letters this is exactly
      JavaScript's case folding without the `u` flag). */
  predicate LiteralAt(s: string, i: nat, lit: string) {
    i + |lit| <= |s| && Lower(s[i..i + |lit|]) == lit
  }

  /** Where the parts of the pattern sit when it matches at `i`: after
      `<div`, the attribute, the code and its end, and `</div>`. Each part
      of the pattern is followed by a character the next part cannot start
      with, so the greedy reading is the only one and no backtracking is
      needed. */
  function Scan(html: string, i: nat): (r: Option<(nat, nat, nat, nat)>)
    ensures r.Some? ==> ElementAt(html, i, r.value.0, r.value.1, r.value.2, r.value.3)
  {
    if !LiteralAt(html, i, OpenTag) then None
    else
      var a := SkipLeft(html, IsJsSpace, i + 4);
      if a == i + 4 || !LiteralAt(html, a, IdAttr) then None
      else
        var b := SkipLeft(html, IsJsSpace, a + 23);
        var c := SkipLeft(html, IsCodeChar, b);
        if c == b then None
        else
          var d := SkipLeft(html, IsJsSpace, c);
          if !LiteralAt(html, d, CloseTag) then None
          else
            SkippedAll(html, IsJsSpace, i + 4);
            SkippedAll(html, IsJsSpace, a + 23);
            SkippedAll(html, IsCodeChar, b);
            SkippedAll(html, IsJsSpace, c);
            Some((a, b, c, d))
  }

  /** The pattern matched at position `i`, giving the captured code, or
      `None`. */
  function MatchAt(html: string, i: nat): (r: Option<string>)
    ensures r.Some? ==> IsCode(r.value)
  {
    match Scan(html, i)
    case None => None
    case Some(p) => Some(html[p.1..p.2])
  }

  /** `html.match(pattern)`: the leftmost match at or after `from`, its
      capture and where it starts. */
  function FindFrom(html: string, from: nat): (r: Option<(nat, string)>)
    requires from <= |html|
    ensures r.Some? ==> from <= r.value.0 < |html| && MatchAt(html, r.value.0) == Some(r.value.1)
    ensures r.Some? ==> forall j :: from <= j < r.value.0 ==> MatchAt(html, j).None?
    ensures r.None? ==> forall j :: from <= j < |html| ==> MatchAt(html, j).None?
    decreases |html| - from
  {
    if from == |html| then None
    else if MatchAt(html, from).Some? then Some((from, MatchAt(html, from).value))
    else FindFrom(html, from + 1)
  }

  /** The code the page yields, if any. */
  function FindCode(html: string): (r: Option<string>)
    ensures r.Some? ==> IsCode(r.value)
  {
    match FindFrom(html, 0)
    case Some(hit) => Some(hit.1)
    case None => None
  }

  /** Every character of `s[lo..hi]` satisfies `p`. */
  predicate AllIn(s: string, p: char -> bool, lo: nat, hi: nat)
    requires lo <= hi <= |s|
  {
    forall k :: lo <= k < hi ==> p(s[k])
  }

  /** `s[i..]` starts with an element in the pattern's shape, with its parts
      at the positions given: `<div` at `i` (letters in any case), at least
      one whitespace character up to `a`, `id="verification-code">` at `a`,
      whitespace up to `b`, the code in `[b, c)`, whitespace up to `d`, and
      `</div>` at `d`. */
  predicate ElementAt(s: string, i: nat, a: nat, b: nat, c: nat, d: nat) {
    i + 4 < a && a + 23 <= b < c <= d <= |s|
    && LiteralAt(s, i, OpenTag) && AllIn(s, IsJsSpace, i + 4, a)
    && LiteralAt(s, a, IdAttr) && AllIn(s, IsJsSpace, a + 23, b)
    && AllIn(s, IsCodeChar, b, c) && AllIn(s, IsJsSpace, c, d)
    && LiteralAt(s, d, CloseTag)
  }

  /** The first character of a literal found at `i`. */
  lemma LiteralFirst(s: string, i: nat, lit: string)
    requires LiteralAt(s, i, lit) && lit != []
    ensures LowerChar(s[i]) == lit[0]
  {
    assert Lower(s[i..i + |lit|])[0] == LowerChar(s[i..i + |lit|][0]);
  }

  /** Skipping a run of characters of one kind stops at its end. */
  lemma {:induction false} SkipRun(s: string, p: char -> bool, lo: nat, hi: nat)
    requires lo <= hi <= |s| && AllIn(s, p, lo, hi)
    requires hi < |s| ==> !p(s[hi])
    ensures SkipLeft(s, p, lo) == hi
    decreases hi - lo
  {
    if lo < hi {
      SkipRun(s, p, lo + 1, hi);
    }
  }

  /** An element in the pattern's shape matches where it starts and
      captures its code. */
  lemma MatchElement(s: string, i: nat, a: nat, b: nat, c: nat, d: nat)
    requires ElementAt(s, i, a, b, c, d)
    ensures Scan(s, i) == Some((a, b, c, d))
    ensures MatchAt(s, i) == Some(s[b..c])
  {
    RunEnds(s, i, a, b, c, d);
    SkipRun(s, IsJsSpace, i + 4, a);
    SkipRun(s, IsJsSpace, a + 23, b);
    SkipRun(s, IsCodeChar, b, c);
    SkipRun(s, IsJsSpace, c, d);
    assert SkipLeft(s, IsJsSpace, i + 4) == a != i + 4 && LiteralAt(s, a, IdAttr);
    assert SkipLeft(s, IsJsSpace, a + 23) == b;
    assert SkipLeft(s, IsCodeChar, b) == c != b;
    assert SkipLeft(s, IsJsSpace, c) == d && LiteralAt(s, d, CloseTag);
    assert Scan(s, i) == Some((a, b, c, d));
  }

  /** Each run of an element in the pattern's shape ends at a character
      of another kind. */
  lemma RunEnds(s: string, i: nat, a: nat, b: nat, c: nat, d: nat)
    requires ElementAt(s, i, a, b, c, d)
    ensures !IsJsSpace(s[a]) && !IsJsSpace(s[b]) && !IsCodeChar(s[c]) && !IsJsSpace(s[d])
  {
    LiteralFirst(s, a, IdAttr);
    LiteralFirst(s, d, CloseTag);
    if c < d {
      assert IsJsSpace(s[c]);
    }
  }

  /** And a match is always such an element: the capture is the code
      between the positions the match found. */
  lemma MatchIsElement(s: string, i: nat)
    requires MatchAt(s, i).Some?
    ensures exists a: nat, b: nat, c: nat, d: nat :: ElementAt(s, i, a, b, c, d) && MatchAt(s, i) == Some(s[b..c])
  {
    var p := Scan(s, i).value;
    assert ElementAt(s, i, p.0, p.1, p.2, p.3);
  }

  /** What `SkipLeft` passes over is all of one kind. */
  lemma SkippedAll(s: string, p: char -> bool, lo: nat)
    requires lo <= |s|
    ensures AllIn(s, p, lo, SkipLeft(s, p, lo))
  {
    SkipLeftSpec(s, p, lo);
  }

  /** A page whose first element in the pattern's shape starts at `i`
      yields that element's code. */
  lemma FindElement(s: string, i: nat, a: nat, b: nat, c: nat, d: nat)
    requires ElementAt(s, i, a, b, c, d)
    requires forall j :: 0 <= j < i ==> MatchAt(s, j).None?
    ensures FindCode(s) == Some(s[b..c])
  {
    MatchElement(s, i, a, b, c, d);
    var r := FindFrom(s, 0);
    assert r.Some? && r.value.0 == i;
  }

  /** The capture never holds whitespace, so the `trim()` applied to it
      changes nothing. */
  lemma CodeIsTrimmed(code: string)
    requires IsCode(code)
    ensures JsTrim(code) == code
  {
    assert !IsJsSpace(code[0]) && !IsJsSpace(code[|code| - 1]);
    StripNoSpace(code, IsJsSpace);
  }

  // -----------------------------------------------------------------------
  // The flow

  /** What `axios.get(CONNECT_URL)` gave: the page text, or an error. */
  datatype Fetched = Page(html: string) | FetchError

  /** What a poll of `device-status` gave: the reply's `status` and `jwt`
      (`None` where absent or `null`), or an error. */
  datatype Polled = Reply(status: Option<string>, jwt: Option<string>) | PollError

  /** The effects the flow has on the outside world, in order. */
  datatype Effect =
    | RetryRegisterLater          // setTimeout(registerDevice, 2000)
    | Register(code: string)      // the first device-status POST, with browser details
    | Poll(sent: Option<string>)  // a device-status POST with { code }
    | RetryPollLater              // setTimeout(pollForJwt, POLL_INTERVAL_MS)
    | OpenSocket(jwt: string)     // io(CENTRAL_URL, { auth: { deviceJwt } })

  /** A JavaScript value that is a string or null is truthy when it is a
      non-empty string. */
  predicate Truthy(v: Option<string>) {
    v.Some? && v.value != []
  }

  /** `data.status === 'registered' && data.jwt`. */
  predicate Accepted(p: Polled) {
    p.Reply? && p.status == Some("registered") && Truthy(p.jwt)
  }

  class Onboard {
    var verificationCode: Option<string>
    var token: Option<string>
    /** The token the open socket authenticates with, if a socket is open. */
    var socket: Option<string>
    var effects: seq<Effect>

    /** A stored code is a captured code; a stored token is truthy; a socket
        is only opened once there is a token. */
    predicate Valid()
      reads this
    {
      (verificationCode.Some? ==> IsCode(verificationCode.value))
      && (token.Some? ==> token.value != [])
      && (socket.Some? ==> token.Some?)
    }

    constructor()
      ensures Valid()
      ensures verificationCode.None? && token.None? && socket.None? && effects == []
    {
      verificationCode := None;
      token := None;
      socket := None;
      effects := [];
    }

    /** `fetchVerificationCode`: true exactly when the page was fetched and
        matches the pattern, in which case the code is stored; otherwise
        nothing changes. */
    method FetchVerificationCode(page: Fetched) returns (found: bool)
      requires Valid()
      modifies this
      ensures Valid()
      ensures found <==> Hit(page)
      ensures found ==> verificationCode == FindCode(page.html)
      ensures !found ==> verificationCode == old(verificationCode)
      ensures token == old(token) && socket == old(socket) && effects == old(effects)
    {
      if page.FetchError? {
        return false;
      }
      var m := FindCode(page.html);
      if m.Some? {
        CodeIsTrimmed(m.value);
        verificationCode := Some(JsTrim(m.value));
        return true;
      }
      return false;
    }

    /** `startSocketIO`: without a token nothing happens; with one the
        socket opens, authenticated by it. */
    method StartSocketIO()
      requires Valid()
      modifies this
      ensures Valid()
      ensures old(token).None? ==> socket == old(socket) && effects == old(effects)
      ensures old(token).Some? ==> socket == old(token) && effects == old(effects) + [OpenSocket(old(token).value)]
      ensures verificationCode == old(verificationCode) && token == old(token)
    {
      if token.None? {
        return;
      }
      socket := token;
      effects := effects + [OpenSocket(token.value)];
    }

    /** `pollForJwt` for one reply: the token is taken, and the socket
        opened, exactly when the reply says `registered` with a truthy
        `jwt`; any other reply, or an error, schedules another poll. */
    method PollForJwt(reply: Polled)
      requires Valid()
      modifies this
      ensures Valid()
      ensures Accepted(reply) ==> (token == reply.jwt && socket == reply.jwt
        && effects == old(effects) + [Poll(old(verificationCode)), OpenSocket(reply.jwt.value)])
      ensures !Accepted(reply) ==> (token == old(token) && socket == old(socket)
        && effects == old(effects) + [Poll(old(verificationCode)), RetryPollLater])
      ensures verificationCode == old(verificationCode)
    {
      effects := effects + [Poll(verificationCode)];
      if reply.Reply? && reply.status == Some("registered") && Truthy(reply.jwt) {
        token := reply.jwt;
        StartSocketIO();
      } else {
        effects := effects + [RetryPollLater];
      }
    }

    /** `registerDevice`: without a code it only schedules itself again;
        with one it posts the code and starts polling (`reply` is what the
        first poll gets back). */
    method RegisterDevice(reply: Polled)
      requires Valid()
      modifies this
      ensures Valid()
      ensures old(verificationCode).None? ==> (effects == old(effects) + [RetryRegisterLater]
        && token == old(token) && socket == old(socket))
      ensures old(verificationCode).Some? && Accepted(reply) ==> (token == reply.jwt && socket == reply.jwt
        && effects == old(effects) + [Register(old(verificationCode).value), Poll(old(verificationCode)), OpenSocket(reply.jwt.value)])
      ensures old(verificationCode).Some? && !Accepted(reply) ==> (token == old(token) && socket == old(socket)
        && effects == old(effects) + [Register(old(verificationCode).value), Poll(old(verificationCode)), RetryPollLater])
      ensures verificationCode == old(verificationCode)
    {
      if verificationCode.None? {
        effects := effects + [RetryRegisterLater];
        return;
      }
      effects := effects + [Register(verificationCode.value)];
      PollForJwt(reply);
    }

    /** The retry loop of the start-up sequence: fetch until a fetch yields
        a code (`pages` are the successive fetch results; the source retries
        forever, the model stops when they run out). */
    method FetchUntilCode(pages: seq<Fetched>) returns (gotCode: bool, tries: nat)
      requires Valid()
      modifies this
      ensures Valid()
      ensures gotCode <==> FirstHit(pages).Some?
      ensures !gotCode ==> tries == |pages| && verificationCode == old(verificationCode)
      ensures gotCode ==> (tries == FirstHit(pages).value + 1 && Hit(pages[tries - 1])
        && verificationCode == FindCode(pages[tries - 1].html))
      ensures token == old(token) && socket == old(socket) && effects == old(effects)
    {
      gotCode := false;
      tries := 0;
      while !gotCode && tries < |pages|
        invariant 0 <= tries <= |pages| && Valid()
        invariant !gotCode ==> forall j :: 0 <= j < tries ==> !Hit(pages[j])
        invariant gotCode ==> forall j :: 0 <= j < tries - 1 ==> !Hit(pages[j])
        invariant gotCode ==> tries > 0 && Hit(pages[tries - 1]) && verificationCode == FindCode(pages[tries - 1].html)
        invariant !gotCode ==> verificationCode == old(verificationCode)
        invariant token == old(token) && socket == old(socket) && effects == old(effects)
      {
        gotCode := FetchVerificationCode(pages[tries]);
        tries := tries + 1;
      }
      if gotCode {
        var h := FirstHit(pages);
        assert h.Some? by {
          assert Hit(pages[tries - 1]);
        }
        assert h.value == tries - 1 by {
          assert !Hit(pages[h.value]) || h.value >= tries - 1;
        }
      }
    }

    /** The start-up sequence: the retry loop, then `registerDevice` exactly
        once, with the code found. */
    method Startup(pages: seq<Fetched>, reply: Polled) returns (tries: nat)
      requires Valid()
      modifies this
      ensures Valid()
      ensures FirstHit(pages).None? ==> (tries == |pages| && verificationCode == old(verificationCode)
        && token == old(token) && socket == old(socket) && effects == old(effects))
      ensures FirstHit(pages).Some? ==> var h := FirstHit(pages).value;
        tries == h + 1 && verificationCode == FindCode(pages[h].html)
      ensures FirstHit(pages).Some? && Accepted(reply) ==> var code := FindCode(pages[FirstHit(pages).value].html);
        && token == reply.jwt && socket == reply.jwt
        && effects == old(effects) + [Register(code.value), Poll(code), OpenSocket(reply.jwt.value)]
      ensures FirstHit(pages).Some? && !Accepted(reply) ==> var code := FindCode(pages[FirstHit(pages).value].html);
        && token == old(token) && socket == old(socket)
        && effects == old(effects) + [Register(code.value), Poll(code), RetryPollLater]
    {
      var gotCode;
      gotCode, tries := FetchUntilCode(pages);
      if gotCode {
        RegisterDevice(reply);
      }
    }
  }

  /** A fetch result that yields a code. */
  predicate Hit(p: Fetched) {
    p.Page? && FindCode(p.html).Some?
  }

  /** The first fetch result that yields a code. */
  function FirstHit(pages: seq<Fetched>): (r: Option<nat>)
    ensures r.Some? ==> r.value < |pages| && Hit(pages[r.value])
    ensures r.Some? ==> forall j :: 0 <= j < r.value ==> !Hit(pages[j])
    ensures r.None? ==> forall j :: 0 <= j < |pages| ==> !Hit(pages[j])
  {
    FirstWhere(pages, Hit)
  }

  // -----------------------------------------------------------------------
  // GET /

  datatype StatusPage = Connecting | ShowCode(code: string) | Connected

  /** The page `GET /` sends: "Connecting" with neither code nor token, the
      code while there is a code but no token, "Device Connected" once there
      is a token. */
  function StatusPageOf(verificationCode: Option<string>, token: Option<string>): (p: StatusPage)
    ensures p.Connecting? <==> !Truthy(verificationCode) && !Truthy(token)
    ensures p.ShowCode? <==> Truthy(verificationCode) && !Truthy(token)
    ensures p.ShowCode? ==> p.code == verificationCode.value
    ensures p.Connected? <==> Truthy(token)
  {
    if !Truthy(verificationCode) && !Truthy(token) then Connecting
    else if Truthy(verificationCode) && !Truthy(token) then ShowCode(verificationCode.value)
    else Connected
  }

  // -----------------------------------------------------------------------
  // runLocal and the device reply

  /** `out += chunk` over the chunks, in order. */
  function Concat(chunks: seq<string>): string {
    if chunks == [] then [] else Concat(chunks[..|chunks| - 1]) + chunks[|chunks| - 1]
  }

  /** The `exit` handler's decision: resolve with stdout on exit code 0;
      otherwise reject with the trimmed stderr, or `Exit code N` when that is
      empty (`None` is a `null` exit code, a process killed by a signal). */
  function ExitResult(code: Option<int>, out: string, err: string): Result<string> {
    if code == Some(0) then Ok(out)
    else if JsTrim(err) != [] then Err(JsTrim(err))
    else Err("Exit code " + (if code.Some? then IntToString(code.value) else "null"))
  }

  /** The process succeeds exactly on exit code 0, with the stdout chunks
      delivered before `exit`; a failure always carries a non-empty message, which is the
      trimmed stderr whenever that is non-empty. */
  lemma ExitResultSpec(code: Option<int>, out: string, err: string)
    ensures ExitResult(code, out, err).Ok? <==> code == Some(0)
    ensures ExitResult(code, out, err).Ok? ==> ExitResult(code, out, err).value == out
    ensures ExitResult(code, out, err).Err? ==> ExitResult(code, out, err).msg != []
    ensures ExitResult(code, out, err).Err? && !AllJsSpace(err) ==> ExitResult(code, out, err).msg == JsTrim(err)
    ensures (ExitResult(code, out, err).Err? && AllJsSpace(err) && code.Some?)
      ==> ExitResult(code, out, err).msg == "Exit code " + IntToString(code.value)
    ensures (ExitResult(code, out, err).Err? && AllJsSpace(err) && code.None?)
      ==> ExitResult(code, out, err).msg == "Exit code null"
  {
    StripEmptyIff(err, IsJsSpace);
  }

  /** `runLocal`: stdout and stderr accumulate the chunks delivered before
      the `exit` event, chunk by chunk; the exit code decides. */
  method RunLocal(outChunks: seq<string>, errChunks: seq<string>, code: Option<int>) returns (r: Result<string>)
    ensures r == ExitResult(code, Concat(outChunks), Concat(errChunks))
  {
    var out := "";
    var i := 0;
    while i < |outChunks|
      invariant 0 <= i <= |outChunks| && out == Concat(outChunks[..i])
    {
      assert outChunks[..i + 1][..i] == outChunks[..i];
      out := out + outChunks[i];
      i := i + 1;
    }
    assert outChunks[..i] == outChunks;
    var err := "";
    var j := 0;
    while j < |errChunks|
      invariant 0 <= j <= |errChunks| && err == Concat(errChunks[..j])
    {
      assert errChunks[..j + 1][..j] == errChunks[..j];
      err := err + errChunks[j];
      j := j + 1;
    }
    assert errChunks[..j] == errChunks;
    if code == Some(0) {
      return Ok(out);
    }
    var trimmed := JsTrim(err);
    if trimmed != [] {
      return Err(trimmed);
    }
    if code.Some? {
      return Err("Exit code " + IntToString(code.value));
    }
    return Err("Exit code null");
  }

  /** The `device-reply` payload. */
  datatype DeviceReply = DeviceReply(id: string, status: string, error: Option<string>)

  /** The reply to a command: its id with `ok`, or with `error` and the
      failure's message. */
  function ReplyTo(id: string, r: Result<string>): (reply: DeviceReply)
    ensures reply.id == id
    ensures reply.status == "ok" <==> r.Ok?
    ensures reply.status == "error" <==> r.Err?
    ensures reply.error.Some? <==> r.Err?
    ensures r.Err? ==> reply.error == Some(r.msg)
  {
    match r
    case Ok(_) => DeviceReply(id, "ok", None)
    case Err(m) => DeviceReply(id, "error", Some(m))
  }

  /** A command replies `ok` exactly when its process exits with 0, and a
      failed command's reply always says why. */
  lemma ReplyOfExit(id: string, code: Option<int>, out: string, err: string)
    ensures var reply := ReplyTo(id, ExitResult(code, out, err));
      && reply.id == id
      && (reply.status == "ok" <==> code == Some(0))
      && (reply.error.Some? ==> reply.error.value != [])
  {
    ExitResultSpec(code, out, err);
  }
}
