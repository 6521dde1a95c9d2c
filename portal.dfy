/** The captive portal of the set-up hotspot: the middleware that sends
    every stray request to `suitestream.local`, and the landing page's list
    of Wi-Fi networks read from the SSID file. Reading the file is outside
    the model: its text, or the failure, is passed in. */
module Portal {
  import opened Text

  const PortalHost := "suitestream.local"

  /** `s.split(c)[0]`: the text before the first `c`, or all of `s`. */
  function Before(s: string, c: char): (r: string)
    ensures c !in r
    ensures c !in s ==> r == s
    ensures c in s ==> |r| < |s| && s == r + [c] + s[|r| + 1..]
  {
    if c in s then
      var i := IndexOf(s, c);
      assert s == s[..i] + [c] + s[i + 1..];
      Split(s, c)[0]
    else Split(s, c)[0]
  }

  /** `(req.headers.host || '').split(':')[0]`: the host name without its
      port, empty when the header is missing. */
  function HostOf(header: Option<string>): (host: string)
    ensures header.None? ==> host == []
    ensures ':' !in host
  {
    match header
    case None => Before([], ':')
    case Some(h) => Before(h, ':')
  }

  /** `req.url.split('?')[0]`: the path without its query. */
  function PathOf(url: string): string {
    Before(url, '?')
  }

  /** The paths operating systems probe to detect a captive portal. */
  predicate IsProbe(path: string) {
    path == "/hotspot-detect.html" || path == "/generate_204"
  }

  datatype Decision = RedirectTo(location: string) | Next

  /** The redirect middleware. */
  function Route(hostHeader: Option<string>, url: string): (d: Decision)
  {
    var host := HostOf(hostHeader);
    var path := PathOf(url);
    if IsProbe(path) then RedirectTo("http://suitestream.local/")
    else if host != [] && host != PortalHost then RedirectTo("http://suitestream.local" + url)
    else Next
  }

  /** A probe is sent to the portal's root whatever the host; otherwise a
      request naming another host is sent to the same URL on the portal;
      a request without a host, or for the portal itself, goes on. */
  lemma RouteSpec(hostHeader: Option<string>, url: string)
    ensures IsProbe(PathOf(url)) ==> Route(hostHeader, url) == RedirectTo("http://suitestream.local/")
    ensures !IsProbe(PathOf(url)) && HostOf(hostHeader) != [] && HostOf(hostHeader) != PortalHost
      ==> Route(hostHeader, url) == RedirectTo("http://suitestream.local" + url)
    ensures Route(hostHeader, url) == Next
      <==> !IsProbe(PathOf(url)) && (HostOf(hostHeader) == [] || HostOf(hostHeader) == PortalHost)
  {
  }

  /** The port in the Host header and the query in the URL play no part
      beyond what they are cut off from. */
  lemma RouteIgnoresPortAndQuery(name: string, port: string, path: string, query: string)
    requires ':' !in name && '?' !in path
    ensures Route(Some(name + ":" + port), path + "?" + query) == Route(Some(name), path + "?" + query)
    ensures PathOf(path + "?" + query) == path
  {
    IndexOfAfter(name, ':', port);
    assert (name + ":" + port)[..|name|] == name;
    IndexOfAfter(path, '?', query);
    assert (path + "?" + query)[..|path|] == path;
  }

  /** Following a redirect never redirects again, unless the URL is itself
      a probe path: the portal's own host passes, and the probe redirect
      lands on `/`, which passes. */
  lemma RedirectSettles(url: string)
    ensures Route(Some(PortalHost), "/") == Next
    ensures !IsProbe(PathOf(url)) ==> Route(Some(PortalHost), url) == Next
  {
    assert ':' !in PortalHost;
    assert '?' !in "/";
  }

  // -----------------------------------------------------------------------
  // The SSID list

  /** `.filter(s => s.trim())`: the lines that are not blank, in order,
      untrimmed. */
  function NonBlank(lines: seq<string>): (r: seq<string>)
    ensures |r| <= |lines|
    ensures forall i :: 0 <= i < |r| ==> !AllJsSpace(r[i])
    ensures forall i :: 0 <= i < |r| ==> r[i] in lines
  {
    if lines == [] then []
    else
      var rest := NonBlank(lines[1..]);
      StripEmptyIff(lines[0], IsJsSpace);
      if JsTrim(lines[0]) != [] then [lines[0]] + rest else rest
  }

  /** Every line that is not blank is kept. */
  lemma {:induction false} NonBlankKeeps(lines: seq<string>)
    ensures forall i :: 0 <= i < |lines| && !AllJsSpace(lines[i]) ==> lines[i] in NonBlank(lines)
  {
    if lines != [] {
      NonBlankKeeps(lines[1..]);
      StripEmptyIff(lines[0], IsJsSpace);
      assert forall i :: 1 <= i < |lines| ==> lines[i] == lines[1..][i - 1];
    }
  }

  /** A list without blank lines is kept whole. */
  lemma {:induction false} NonBlankAll(lines: seq<string>)
    requires forall i :: 0 <= i < |lines| ==> !AllJsSpace(lines[i])
    ensures NonBlank(lines) == lines
  {
    if lines != [] {
      NonBlankAll(lines[1..]);
      StripEmptyIff(lines[0], IsJsSpace);
      assert [lines[0]] + lines[1..] == lines;
    }
  }

  /** Filtering distributes over concatenation. */
  lemma {:induction false} NonBlankAppend(a: seq<string>, b: seq<string>)
    ensures NonBlank(a + b) == NonBlank(a) + NonBlank(b)
  {
    if a != [] {
      assert (a + b)[0] == a[0];
      assert (a + b)[1..] == a[1..] + b;
      NonBlankAppend(a[1..], b);
      if JsTrim(a[0]) != [] {
        Associative([a[0]], NonBlank(a[1..]), NonBlank(b));
      }
    } else {
      assert a + b == b;
    }
  }

  /** The SSIDs: the file's lines that are not blank, or none when the file
      cannot be read. */
  function Ssids(file: Option<string>): seq<string> {
    match file
    case None => []
    case Some(data) => NonBlank(Split(data, '\n'))
  }

  /** A file listing SSIDs one per line reads back as those SSIDs in
      order; an empty file lists none. */
  lemma SsidsOfFile(ssids: seq<string>)
    requires forall i :: 0 <= i < |ssids| ==> '\n' !in ssids[i] && !AllJsSpace(ssids[i])
    ensures Ssids(Some(Join(ssids, "\n"))) == ssids
  {
    if ssids == [] {
      assert Join(ssids, "\n") == [];
      assert Split([], '\n') == [[]];
      assert AllJsSpace([]);
      StripEmptyIff([], IsJsSpace);
    } else {
      SplitJoin(ssids, '\n');
      NonBlankAll(ssids);
    }
  }

  /** A final newline makes no difference. */
  lemma SsidsFinalNewline(data: string)
    ensures Ssids(Some(data + "\n")) == Ssids(Some(data))
  {
    SplitAppendSep(data, '\n', []);
    assert data + "\n" == data + ['\n'] + [];
    var lines := Split(data, '\n');
    NonBlankAppend(lines, [[]]);
    assert AllJsSpace([]);
    assert NonBlank([[]]) == [];
  }

  /** `ssids.map(s => `<option>${s}</option>`).join('')`. */
  function Options(ssids: seq<string>): string {
    if ssids == [] then [] else Options(ssids[..|ssids| - 1]) + "<option>" + ssids[|ssids| - 1] + "</option>"
  }

  /** One element per SSID, in list order: the rendering of a list is the
      renderings of its parts, one after the other. */
  lemma {:induction false} OptionsAppend(a: seq<string>, b: seq<string>)
    ensures Options(a + b) == Options(a) + Options(b)
    decreases |b|
  {
    if b == [] {
      assert a + b == a;
    } else {
      var n := |b| - 1;
      assert (a + b)[..|a + b| - 1] == a + b[..n];
      OptionsAppend(a, b[..n]);
    }
  }

  lemma OptionsOne(s: string)
    ensures Options([s]) == "<option>" + s + "</option>"
  {
  }
}
