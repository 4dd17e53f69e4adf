/** `CrawlerService`: opens a Drive video page, captures the URLs of the
    video and the audio stream the player requests, downloads both with
    curl and merges them with ffmpeg.

    The browser is replaced by what it shows (`BrowserRun`): whether it
    landed on a login form, the requests the page issued before the wait
    loop and during each of its one-second waits, the context's cookies
    and the page's user agent. curl and ffmpeg are replaced by their
    outcomes. */
module Crawler {
  import opened Wrappers
  import opened Strings
  import opened NodePath
  import opened LocalFs

  const SESSION_EXPIRED := "SESSION_EXPIRED"
  const TIMEOUT_MESSAGE := "TIMEOUT: Failed to capture streams."
  /** The wait loop makes at most this many one-second checks. */
  const MAX_CHECKS := 60
  /** Every this many checks the player is clicked while no video stream
      has been seen. */
  const NUDGE_EVERY := 5
  /** A download smaller than this is taken for an error page. */
  const MIN_DOWNLOAD_BYTES := 100000
  const DRIVE_REFERER := "https://drive.google.com/"
  /** The query parameters removed from a captured stream URL. */
  const STRIPPED_PARAMS: set<string> := {"range", "rbuf", "ump", "srfvp"}

  // ------------------------------------------------------------ request URLs

  datatype Param = Param(name: string, value: string)

  /** What precedes the query of a URL; never empty (a URL has a scheme). */
  type UrlBase = s: string | |s| > 0 witness "https:"

  /** A request the page issued: its URL taken apart into what precedes
      the query and the query's parameters in order, and its headers. */
  datatype Request = Request(base: UrlBase, params: seq<Param>, headers: map<string, string>)

  function QueryText(ps: seq<Param>): string {
    Join(seq(|ps|, i requires 0 <= i < |ps| => ps[i].name + "=" + ps[i].value), "&")
  }

  /** A URL as text: no `?` when there are no parameters. */
  function UrlText(base: UrlBase, ps: seq<Param>): (u: string)
    ensures |u| > 0
  {
    if |ps| == 0 then base else base + "?" + QueryText(ps)
  }

  /** What stripping leaves of one parameter. */
  function KeepOne(p: Param): seq<Param> {
    if p.name in STRIPPED_PARAMS then [] else [p]
  }

  /** The parameters kept, built from the last one backwards: the
      reference the stripping is measured against. */
  function KeptBackward(ps: seq<Param>): seq<Param>
    decreases |ps|
  {
    if |ps| == 0 then [] else KeptBackward(ps[..|ps| - 1]) + KeepOne(ps[|ps| - 1])
  }

  /** The reference keeps the first parameter unless it is stripped, ahead
      of what it keeps of the rest. */
  lemma {:induction false} KeptBackwardFirst(ps: seq<Param>)
    requires |ps| > 0
    ensures KeptBackward(ps) == KeepOne(ps[0]) + KeptBackward(ps[1..])
    decreases |ps|
  {
    if |ps| == 1 {
      assert ps[..0] == [] && ps[1..] == [];
    } else {
      var u := ps[..|ps| - 1];
      KeptBackwardFirst(u);
      assert u[0] == ps[0];
      assert u[1..] == ps[1..][..|ps[1..]| - 1];
      assert ps[1..][|ps[1..]| - 1] == ps[|ps| - 1];
    }
  }

  /** `searchParams.delete` of each stripped name: every parameter with
      such a name goes, the others stay, in their order and with their
      repetitions. */
  function StripParams(ps: seq<Param>): (r: seq<Param>)
    ensures r == KeptBackward(ps)
    ensures |r| <= |ps|
    ensures forall i :: 0 <= i < |r| ==> r[i].name !in STRIPPED_PARAMS
    ensures forall p :: p in r <==> p in ps && p.name !in STRIPPED_PARAMS
  {
    if |ps| == 0 then []
    else
      KeptBackwardFirst(ps);
      KeepOne(ps[0]) + StripParams(ps[1..])
  }

  /** Stripping keeps a query with none of the stripped names as it is,
      and so stripping twice is stripping once. */
  lemma {:induction false} StripKeepsOthers(ps: seq<Param>)
    requires forall i :: 0 <= i < |ps| ==> ps[i].name !in STRIPPED_PARAMS
    ensures StripParams(ps) == ps
  {
    if |ps| > 0 {
      StripKeepsOthers(ps[1..]);
      assert [ps[0]] + ps[1..] == ps;
    }
  }

  lemma StripIdempotent(ps: seq<Param>)
    ensures StripParams(StripParams(ps)) == StripParams(ps)
  {
    StripKeepsOthers(StripParams(ps));
  }

  function RequestUrl(r: Request): string {
    UrlText(r.base, r.params)
  }

  /** The observer's filter: the URL mentions both `videoplayback` and
      `clen=`. */
  predicate IsCandidate(r: Request) {
    Contains(RequestUrl(r), "videoplayback") && Contains(RequestUrl(r), "clen=")
  }

  predicate IsVideo(r: Request) {
    IsCandidate(r) && Contains(RequestUrl(r), "mime=video")
  }

  predicate IsAudio(r: Request) {
    IsCandidate(r) && Contains(RequestUrl(r), "mime=audio")
  }

  /** The URL kept for a candidate: the same URL with the stripped
      parameters deleted. It keeps the part before the query and leaves a
      URL without stripped parameters as it is. */
  function StreamUrl(r: Request): (u: string)
    ensures r.base <= u
    ensures (forall i :: 0 <= i < |r.params| ==> r.params[i].name !in STRIPPED_PARAMS) ==> u == RequestUrl(r)
  {
    if forall i :: 0 <= i < |r.params| ==> r.params[i].name !in STRIPPED_PARAMS then
      StripKeepsOthers(r.params);
      UrlText(r.base, StripParams(r.params))
    else
      UrlText(r.base, StripParams(r.params))
  }

  /** Whether or not the parameters were stripped before, the kept URL is
      the same. */
  lemma StreamUrlOfStripped(r: Request)
    ensures StreamUrl(r.(params := StripParams(r.params))) == StreamUrl(r)
  {
    StripIdempotent(r.params);
  }

  // ----------------------------------------------------------- the observer

  /** The observer's captured variables. */
  datatype Streams = Streams(video: Option<string>, audio: Option<string>, headers: map<string, string>)

  const NONE_SEEN := Streams(None, None, map[])

  /** The `page.on('request')` handler. A candidate fills the video slot
      when it is a video stream and the slot is empty, taking its headers
      along; otherwise it fills the audio slot when it is an audio stream
      and that slot is empty. Nothing is ever overwritten. */
  function Observe(s: Streams, r: Request): Streams {
    if !IsCandidate(r) then s
    else if Contains(RequestUrl(r), "mime=video") && s.video.None? then
      s.(video := Some(StreamUrl(r)), headers := r.headers)
    else if Contains(RequestUrl(r), "mime=audio") && s.audio.None? then
      s.(audio := Some(StreamUrl(r)))
    else s
  }

  function ObserveAll(s: Streams, rs: seq<Request>): Streams
    decreases |rs|
  {
    if |rs| == 0 then s else ObserveAll(Observe(s, rs[0]), rs[1..])
  }

  lemma {:induction false} ObserveAllAppend(s: Streams, a: seq<Request>, b: seq<Request>)
    ensures ObserveAll(s, a + b) == ObserveAll(ObserveAll(s, a), b)
    decreases |a|
  {
    if |a| == 0 {
      assert a + b == b;
    } else {
      assert (a + b)[1..] == a[1..] + b;
      ObserveAllAppend(Observe(s, a[0]), a[1..], b);
    }
  }

  /** The index of the first video candidate. */
  function FirstVideo(rs: seq<Request>): (r: Option<nat>)
    ensures r.Some? ==> (r.value < |rs| && IsVideo(rs[r.value]) &&
      forall j :: 0 <= j < r.value ==> !IsVideo(rs[j]))
    ensures r.None? ==> forall j :: 0 <= j < |rs| ==> !IsVideo(rs[j])
  {
    if |rs| == 0 then None
    else if IsVideo(rs[0]) then Some(0)
    else match FirstVideo(rs[1..])
      case None => None
      case Some(i) => Some(i + 1)
  }

  /** A request taken as the audio stream candidate: an audio candidate
      that is not the one taken as the video stream. */
  predicate AudioAt(rs: seq<Request>, i: nat)
    requires i < |rs|
  {
    IsAudio(rs[i]) && FirstVideo(rs) != Some(i)
  }

  /** The index of the first request from `k` on taken as audio. */
  function FirstAudioFrom(rs: seq<Request>, k: nat): (r: Option<nat>)
    ensures r.Some? ==> (k <= r.value < |rs| && AudioAt(rs, r.value) &&
      forall j :: k <= j < r.value ==> !AudioAt(rs, j))
    ensures r.None? ==> forall j :: k <= j < |rs| ==> !AudioAt(rs, j)
    decreases |rs| - k
  {
    if k >= |rs| then None
    else if AudioAt(rs, k) then Some(k)
    else FirstAudioFrom(rs, k + 1)
  }

  function FirstAudio(rs: seq<Request>): Option<nat> {
    FirstAudioFrom(rs, 0)
  }

  /** What the observer holds after `rs`, stated without the observer:
      the first video candidate's URL and headers, and the first audio
      candidate's URL among the requests not taken as video. */
  function FirstSeen(rs: seq<Request>): Streams {
    Streams(
      if FirstVideo(rs).Some? then Some(StreamUrl(rs[FirstVideo(rs).value])) else None,
      if FirstAudio(rs).Some? then Some(StreamUrl(rs[FirstAudio(rs).value])) else None,
      if FirstVideo(rs).Some? then rs[FirstVideo(rs).value].headers else map[])
  }

  lemma {:induction false} FirstVideoSnoc(rs: seq<Request>, r: Request)
    ensures FirstVideo(rs + [r]) ==
      if FirstVideo(rs).Some? then FirstVideo(rs)
      else if IsVideo(r) then Some(|rs|) else None
    decreases |rs|
  {
    var xs := rs + [r];
    if |rs| == 0 {
      assert xs == [r];
      assert xs[1..] == [];
    } else {
      assert xs[0] == rs[0];
      assert xs[1..] == rs[1..] + [r];
      FirstVideoSnoc(rs[1..], r);
    }
  }

  lemma AudioAtSnoc(rs: seq<Request>, r: Request)
    ensures forall j :: 0 <= j < |rs| ==> (AudioAt(rs + [r], j) <==> AudioAt(rs, j))
    ensures AudioAt(rs + [r], |rs|) <==> IsAudio(r) && !(FirstVideo(rs).None? && IsVideo(r))
  {
    var xs := rs + [r];
    FirstVideoSnoc(rs, r);
    assert forall j :: 0 <= j < |rs| ==> xs[j] == rs[j];
    assert xs[|rs|] == r;
  }

  lemma {:induction false} FirstAudioFromSnoc(rs: seq<Request>, r: Request, k: nat)
    requires k <= |rs|
    requires forall j :: 0 <= j < |rs| ==> (AudioAt(rs + [r], j) <==> AudioAt(rs, j))
    ensures FirstAudioFrom(rs + [r], k) ==
      if FirstAudioFrom(rs, k).Some? then FirstAudioFrom(rs, k)
      else if AudioAt(rs + [r], |rs|) then Some(|rs|) else None
    decreases |rs| - k
  {
    var t := rs + [r];
    if k < |rs| {
      assert AudioAt(t, k) <==> AudioAt(rs, k);
      if !AudioAt(rs, k) {
        FirstAudioFromSnoc(rs, r, k + 1);
        assert FirstAudioFrom(t, k) == FirstAudioFrom(t, k + 1);
        assert FirstAudioFrom(rs, k) == FirstAudioFrom(rs, k + 1);
      }
    } else {
      assert FirstAudioFrom(rs, k) == None;
      assert FirstAudioFrom(t, k + 1) == None;
    }
  }

  lemma FirstAudioSnoc(rs: seq<Request>, r: Request)
    ensures FirstAudio(rs + [r]) ==
      if FirstAudio(rs).Some? then FirstAudio(rs)
      else if IsAudio(r) && !(FirstVideo(rs).None? && IsVideo(r)) then Some(|rs|) else None
  {
    AudioAtSnoc(rs, r);
    FirstAudioFromSnoc(rs, r, 0);
  }

  /** First seen wins: the observer, started empty, ends holding exactly
      the first video candidate (with its headers) and the first audio
      candidate not taken as video. */
  lemma {:induction false} ObserverKeepsFirstSeen(rs: seq<Request>)
    ensures ObserveAll(NONE_SEEN, rs) == FirstSeen(rs)
    decreases |rs|
  {
    if |rs| > 0 {
      var init := rs[..|rs| - 1];
      var r := rs[|rs| - 1];
      assert rs == init + [r];
      ObserverKeepsFirstSeen(init);
      ObserveAllAppend(NONE_SEEN, init, [r]);
      FirstVideoSnoc(init, r);
      FirstAudioSnoc(init, r);
    }
  }

  /** The observer's variables, updated in place by the handler. */
  class StreamCapture {
    var video: Option<string>
    var audio: Option<string>
    var headers: map<string, string>

    constructor()
      ensures Snapshot() == NONE_SEEN
    {
      video := None;
      audio := None;
      headers := map[];
    }

    function Snapshot(): Streams
      reads this
    {
      Streams(video, audio, headers)
    }

    /** The request handler. */
    method OnRequest(r: Request)
      modifies this
      ensures Snapshot() == Observe(old(Snapshot()), r)
    {
      var url := RequestUrl(r);
      if Contains(url, "videoplayback") && Contains(url, "clen=") {
        var full := StreamUrl(r);
        if Contains(url, "mime=video") && video.None? {
          video := Some(full);
          headers := r.headers;
        } else if Contains(url, "mime=audio") && audio.None? {
          audio := Some(full);
        }
      }
    }
  }

  /** The requests `rs` reaching the handler one after another. */
  method Deliver(cap: StreamCapture, rs: seq<Request>)
    modifies cap
    ensures cap.Snapshot() == ObserveAll(old(cap.Snapshot()), rs)
  {
    ghost var s0 := cap.Snapshot();
    var j := 0;
    while j < |rs|
      invariant 0 <= j <= |rs|
      invariant cap.Snapshot() == ObserveAll(s0, rs[..j])
    {
      cap.OnRequest(rs[j]);
      ObserveAllAppend(s0, rs[..j], [rs[j]]);
      assert rs[..j + 1] == rs[..j] + [rs[j]];
      j := j + 1;
    }
    assert rs[..j] == rs;
  }

  // ------------------------------------------------------------ the wait loop

  function Flatten(ticks: seq<seq<Request>>): seq<Request> {
    if |ticks| == 0 then [] else Flatten(ticks[..|ticks| - 1]) + ticks[|ticks| - 1]
  }

  predicate BothSeen(s: Streams) {
    s.video.Some? && s.audio.Some?
  }

  /** What the observer holds after the first `k` one-second waits, having
      held `s0` when the loop started. */
  function SeenAfter(s0: Streams, ticks: seq<seq<Request>>, k: nat): Streams
    requires k <= |ticks|
  {
    ObserveAll(s0, Flatten(ticks[..k]))
  }

  lemma SeenAfterStep(s0: Streams, ticks: seq<seq<Request>>, k: nat)
    requires k < |ticks|
    ensures SeenAfter(s0, ticks, k + 1) == ObserveAll(SeenAfter(s0, ticks, k), ticks[k])
  {
    assert ticks[..k + 1][..k] == ticks[..k];
    ObserveAllAppend(s0, Flatten(ticks[..k]), ticks[k]);
  }

  /** How many checks the loop makes from check `k` on: it stops at the
      first count where both streams are seen, or at `MAX_CHECKS`. */
  function ChecksFrom(s0: Streams, ticks: seq<seq<Request>>, k: nat): (n: nat)
    requires |ticks| == MAX_CHECKS && k <= MAX_CHECKS
    ensures k <= n <= MAX_CHECKS
    decreases MAX_CHECKS - k
  {
    if k == MAX_CHECKS || BothSeen(SeenAfter(s0, ticks, k)) then k else ChecksFrom(s0, ticks, k + 1)
  }

  function Checks(s0: Streams, ticks: seq<seq<Request>>): nat
    requires |ticks| == MAX_CHECKS
  {
    ChecksFrom(s0, ticks, 0)
  }

  /** The loop stops as soon as both streams are seen and never later
      than `MAX_CHECKS`; when it stops early both have been seen. */
  lemma {:induction false} ChecksStopFirst(s0: Streams, ticks: seq<seq<Request>>, k: nat)
    requires |ticks| == MAX_CHECKS && k <= MAX_CHECKS
    ensures var n := ChecksFrom(s0, ticks, k);
      (n == MAX_CHECKS || BothSeen(SeenAfter(s0, ticks, n))) &&
      forall j :: k <= j < n ==> !BothSeen(SeenAfter(s0, ticks, j))
    decreases MAX_CHECKS - k
  {
    if k < MAX_CHECKS && !BothSeen(SeenAfter(s0, ticks, k)) {
      ChecksStopFirst(s0, ticks, k + 1);
    }
  }

  /** Check `c` is followed by a click: a multiple of five with no video
      stream seen by then. */
  predicate ClickedAt(s0: Streams, ticks: seq<seq<Request>>, c: nat)
    requires c <= |ticks|
  {
    c % NUDGE_EVERY == 0 && SeenAfter(s0, ticks, c).video.None?
  }

  /** The checks after which the player is clicked: every fifth one
      while no video stream has been seen. */
  function Nudges(s0: Streams, ticks: seq<seq<Request>>, n: nat): seq<nat>
    requires n <= |ticks|
  {
    if n == 0 then []
    else
      Nudges(s0, ticks, n - 1) + (if ClickedAt(s0, ticks, n) then [n] else [])
  }

  /** The click schedule: a click follows check `c` exactly when `c` is a
      multiple of five and no video stream has been seen by then. */
  lemma NudgeSchedule(s0: Streams, ticks: seq<seq<Request>>, n: nat)
    requires n <= |ticks|
    ensures forall c: nat :: c in Nudges(s0, ticks, n) <==> 1 <= c <= n && ClickedAt(s0, ticks, c)
  {
    forall c: nat ensures c in Nudges(s0, ticks, n) <==> 1 <= c <= n && ClickedAt(s0, ticks, c) {
      NudgeAt(s0, ticks, n, c);
    }
  }

  lemma {:induction false} NudgeAt(s0: Streams, ticks: seq<seq<Request>>, n: nat, c: nat)
    requires n <= |ticks|
    ensures c in Nudges(s0, ticks, n) <==> 1 <= c <= n && ClickedAt(s0, ticks, c)
    decreases n
  {
    if n > 0 {
      NudgeAt(s0, ticks, n - 1, c);
      var extra := if ClickedAt(s0, ticks, n) then [n] else [];
      assert Nudges(s0, ticks, n) == Nudges(s0, ticks, n - 1) + extra;
      assert c in Nudges(s0, ticks, n) <==> c in Nudges(s0, ticks, n - 1) || c in extra;
    }
  }

  /** At most one click per five checks. */
  lemma {:induction false} NudgeCount(s0: Streams, ticks: seq<seq<Request>>, n: nat)
    requires n <= |ticks|
    ensures |Nudges(s0, ticks, n)| <= n / NUDGE_EVERY
    decreases n
  {
    if n > 0 {
      NudgeCount(s0, ticks, n - 1);
      assert n % NUDGE_EVERY == 0 ==> (n - 1) / NUDGE_EVERY + 1 == n / NUDGE_EVERY;
      assert (n - 1) / NUDGE_EVERY <= n / NUDGE_EVERY;
    }
  }

  /** The wait loop: one-second waits while a stream is missing, at most
      `MAX_CHECKS` of them, the requests of each wait reaching the
      observer, and a click on the player after every fifth check while
      no video stream has been seen. Returns the checks made and the
      checks after which it clicked. */
  method WaitForStreams(cap: StreamCapture, ticks: seq<seq<Request>>) returns (checks: nat, nudges: seq<nat>)
    requires |ticks| == MAX_CHECKS
    modifies cap
    ensures checks == Checks(old(cap.Snapshot()), ticks)
    ensures cap.Snapshot() == SeenAfter(old(cap.Snapshot()), ticks, checks)
    ensures nudges == Nudges(old(cap.Snapshot()), ticks, checks)
  {
    ghost var s0 := cap.Snapshot();
    checks := 0;
    nudges := [];
    while (cap.video.None? || cap.audio.None?) && checks < MAX_CHECKS
      invariant 0 <= checks <= MAX_CHECKS
      invariant cap.Snapshot() == SeenAfter(s0, ticks, checks)
      invariant nudges == Nudges(s0, ticks, checks)
      invariant ChecksFrom(s0, ticks, checks) == Checks(s0, ticks)
      decreases MAX_CHECKS - checks
    {
      checks, nudges := WaitOnce(cap, s0, ticks, checks, nudges);
    }
  }

  /** One turn of the wait loop: the one-second wait, in which whatever
      the page requests reaches the observer, then the click when it is
      due. */
  method WaitOnce(cap: StreamCapture, ghost s0: Streams, ticks: seq<seq<Request>>, checks: nat, nudges: seq<nat>)
    returns (next: nat, nudged: seq<nat>)
    requires |ticks| == MAX_CHECKS && checks < MAX_CHECKS && (cap.video.None? || cap.audio.None?)
    requires cap.Snapshot() == SeenAfter(s0, ticks, checks) && nudges == Nudges(s0, ticks, checks)
    modifies cap
    ensures next == checks + 1 && ChecksFrom(s0, ticks, next) == ChecksFrom(s0, ticks, checks)
    ensures cap.Snapshot() == SeenAfter(s0, ticks, next) && nudged == Nudges(s0, ticks, next)
  {
    assert !BothSeen(SeenAfter(s0, ticks, checks));
    Deliver(cap, ticks[checks]);
    SeenAfterStep(s0, ticks, checks);
    next := checks + 1;
    nudged := nudges;
    if next % NUDGE_EVERY == 0 && cap.video.None? {
      assert ClickedAt(s0, ticks, next);
      nudged := nudges + [next];
    }
  }

  // ------------------------------------------------------ one browser run

  datatype Cookie = Cookie(name: string, value: string)

  /** What one browser run shows. `pageUrl` and `emailField` are the page
      after navigation: its URL and whether it has an e-mail input. */
  datatype BrowserRun = BrowserRun(
    pageUrl: string, emailField: bool, early: seq<Request>, ticks: seq<seq<Request>>,
    cookies: seq<Cookie>, userAgent: string)

  predicate WellFormedRun(run: BrowserRun) {
    |run.ticks| == MAX_CHECKS
  }

  predicate IsLoginPage(run: BrowserRun) {
    Contains(run.pageUrl, "accounts.google.com") || run.emailField
  }

  datatype StreamResult = StreamResult(videoUrl: string, audioUrl: string, headers: map<string, string>)

  /** A header a JavaScript test finds truthy: present and not empty. */
  predicate Truthy(h: map<string, string>, key: string) {
    key in h && h[key] != ""
  }

  /** The `Cookie` header of section 5.4 of RFC 6265: `name=value` pairs
      joined by `; `. */
  function CookieHeader(cs: seq<Cookie>): string {
    Join(seq(|cs|, i requires 0 <= i < |cs| => cs[i].name + "=" + cs[i].value), "; ")
  }

  /** The cookie header is empty exactly when there are no cookies, and
      one more cookie adds `; name=value`. */
  lemma CookieHeaderShape(cs: seq<Cookie>, c: Cookie)
    ensures CookieHeader(cs) == "" <==> |cs| == 0
    ensures |cs| > 0 ==> CookieHeader(cs + [c]) == CookieHeader(cs) + "; " + c.name + "=" + c.value
  {
    var pairs := seq(|cs|, i requires 0 <= i < |cs| => cs[i].name + "=" + cs[i].value);
    if |cs| > 0 {
      assert |Join(pairs, "; ")| >= |pairs[0]|;
      var more := seq(|cs + [c]|, i requires 0 <= i < |cs + [c]| => (cs + [c])[i].name + "=" + (cs + [c])[i].value);
      assert more == pairs + [c.name + "=" + c.value];
      JoinSnoc(pairs, c.name + "=" + c.value, "; ");
    }
  }

  /** The captured headers, or, when they carry no cookie, a cookie header
      rebuilt from the context with the page's user agent and the Drive
      referer. */
  function RefineHeaders(h: map<string, string>, cs: seq<Cookie>, ua: string): map<string, string> {
    if !Truthy(h, "cookie") && !Truthy(h, "Cookie") then
      map["cookie" := CookieHeader(cs), "user-agent" := ua, "referer" := DRIVE_REFERER]
    else h
  }

  /** The outcome of one run of `runBrowser`. */
  function BrowserOutcome(run: BrowserRun, headless: bool): Result<StreamResult>
    requires WellFormedRun(run)
  {
    if headless && IsLoginPage(run) then Err(SESSION_EXPIRED)
    else
      var s0 := ObserveAll(NONE_SEEN, run.early);
      var s := SeenAfter(s0, run.ticks, Checks(s0, run.ticks));
      if s.video.None? || s.audio.None? then Err(TIMEOUT_MESSAGE)
      else Ok(StreamResult(s.video.value, s.audio.value, RefineHeaders(s.headers, run.cookies, run.userAgent)))
  }

  /** A run yields the first video and first audio candidate of all the
      requests it saw, and fails with the timeout exactly when one of
      them never came. Only a headless run can report an expired
      session. */
  lemma BrowserOutcomeFirstSeen(run: BrowserRun, headless: bool)
    requires WellFormedRun(run)
    ensures !headless ==> BrowserOutcome(run, headless) != Err(SESSION_EXPIRED)
    ensures !(headless && IsLoginPage(run)) ==>
      var s0 := ObserveAll(NONE_SEEN, run.early);
      var seen := run.early + Flatten(run.ticks[..Checks(s0, run.ticks)]);
      var fs := FirstSeen(seen);
      (BrowserOutcome(run, headless).Err? <==> fs.video.None? || fs.audio.None?) &&
      (BrowserOutcome(run, headless).Ok? ==>
        BrowserOutcome(run, headless).value.videoUrl == fs.video.value &&
        BrowserOutcome(run, headless).value.audioUrl == fs.audio.value)
  {
    var s0 := ObserveAll(NONE_SEEN, run.early);
    var seen := run.early + Flatten(run.ticks[..Checks(s0, run.ticks)]);
    ObserveAllAppend(NONE_SEEN, run.early, Flatten(run.ticks[..Checks(s0, run.ticks)]));
    ObserverKeepsFirstSeen(seen);
  }

  /** `runBrowser(url, headless)`. In visible mode the human login wait
      is taken to have ended; what the page showed then is `run`. */
  method RunBrowser(run: BrowserRun, headless: bool) returns (r: Result<StreamResult>)
    requires WellFormedRun(run)
    ensures r == BrowserOutcome(run, headless)
  {
    if headless && IsLoginPage(run) {
      return Err(SESSION_EXPIRED);
    }
    var cap := new StreamCapture();
    Deliver(cap, run.early);
    var checks, nudges := WaitForStreams(cap, run.ticks);
    if cap.video.None? || cap.audio.None? {
      return Err(TIMEOUT_MESSAGE);
    }
    var headers := cap.headers;
    if !Truthy(headers, "cookie") && !Truthy(headers, "Cookie") {
      headers := map["cookie" := CookieHeader(run.cookies), "user-agent" := run.userAgent, "referer" := DRIVE_REFERER];
    }
    r := Ok(StreamResult(cap.video.value, cap.audio.value, headers));
  }

  // ------------------------------------------------------------ downloads

  /** `h[lower] || h[upper]`: the lower-case key wins unless its value is
      missing or empty; `None` is `undefined`. */
  function Pick(h: map<string, string>, lower: string, upper: string): Option<string> {
    if Truthy(h, lower) then Some(h[lower]) else if upper in h then Some(h[upper]) else None
  }

  /** A value interpolated into a template string. */
  function Interp(v: Option<string>): string {
    if v.None? then "undefined" else v.value
  }

  /** The curl command `downloadWithCurl` runs. */
  function CurlCommand(url: string, h: map<string, string>, outputPath: string): string {
    "curl -L -k -b \"" + Interp(Pick(h, "cookie", "Cookie")) + "\" -A \"" +
    Interp(Pick(h, "user-agent", "User-Agent")) + "\" -e \"" + Interp(Pick(h, "referer", "Referer")) +
    "\" -o \"" + outputPath + "\" \"" + url + "\""
  }

  /** What curl hands on after refining: the captured cookie when there
      was one; otherwise the rebuilt header, the page's user agent and
      the Drive referer, except that with no cookies at all the empty
      header falls through to `undefined`. */
  lemma CurlSeesRefinedHeaders(h: map<string, string>, cs: seq<Cookie>, ua: string)
    ensures Truthy(h, "cookie") || Truthy(h, "Cookie") ==>
      Pick(RefineHeaders(h, cs, ua), "cookie", "Cookie") == Pick(h, "cookie", "Cookie") &&
      Pick(h, "cookie", "Cookie").Some? && Pick(h, "cookie", "Cookie").value != ""
    ensures !Truthy(h, "cookie") && !Truthy(h, "Cookie") ==>
      Pick(RefineHeaders(h, cs, ua), "cookie", "Cookie") == (if |cs| == 0 then None else Some(CookieHeader(cs))) &&
      Pick(RefineHeaders(h, cs, ua), "referer", "Referer") == Some(DRIVE_REFERER) &&
      Pick(RefineHeaders(h, cs, ua), "user-agent", "User-Agent") == (if ua == "" then None else Some(ua))
  {
    CookieHeaderShape(cs, Cookie("", ""));
  }

  /** How a curl run ended: the process failed, or it wrote a file of
      `size` bytes. */
  datatype CurlRun = CurlFailed(message: string) | CurlWrote(size: nat)

  function TooSmallMessage(size: nat): string {
    "File too small: " + NatToString(size) + " bytes. Likely an error page."
  }

  /** `downloadWithCurl`'s outcome: a written file under the threshold is
      an error too. */
  function CurlOutcome(run: CurlRun): (r: Result<()>)
    ensures r.Ok? <==> run.CurlWrote? && run.size >= MIN_DOWNLOAD_BYTES
    ensures run.CurlFailed? ==> r == Err(run.message)
    ensures run.CurlWrote? && r.Err? ==> r.message == TooSmallMessage(run.size)
  {
    if run.CurlFailed? then Err(run.message)
    else if run.size < MIN_DOWNLOAD_BYTES then Err(TooSmallMessage(run.size))
    else Ok(())
  }

  /** `downloadWithCurl(url, headers, outputPath)`. */
  method DownloadWithCurl(disk: LocalDisk, outputPath: string, run: CurlRun) returns (r: Result<()>)
    modifies disk
    ensures r == CurlOutcome(run)
    ensures disk.files == if run.CurlWrote? then old(disk.files) + {outputPath} else old(disk.files)
  {
    if run.CurlFailed? {
      return Err(run.message);
    }
    disk.Write(outputPath);
    if run.size < MIN_DOWNLOAD_BYTES {
      return Err(TooSmallMessage(run.size));
    }
    r := Ok(());
  }

  // ------------------------------------------------------ downloadAndProcess

  function DownloadsDir(cwd: string): string {
    JoinPath([cwd, "downloads"])
  }

  /** `<downloads>/<prefix><timestamp>.mp4`. */
  function TrackPath(cwd: string, prefix: string, now: nat): string {
    JoinPath([DownloadsDir(cwd), prefix + NatToString(now) + ".mp4"])
  }

  function VideoPath(cwd: string, now: nat): string { TrackPath(cwd, "video_", now) }
  function AudioPath(cwd: string, now: nat): string { TrackPath(cwd, "audio_", now) }
  function OutputPath(cwd: string, now: nat): string { TrackPath(cwd, "output_", now) }

  lemma TrackNameIsPlain(prefix: string, now: nat)
    requires prefix != "" && '/' !in prefix
    ensures PlainSegment(prefix + NatToString(now) + ".mp4")
  {
    var x := prefix + NatToString(now) + ".mp4";
    assert x[|x| - 1] == '4';
    forall i | 0 <= i < |x| ensures x[i] != '/' {
      if i >= |prefix| && i < |prefix| + |NatToString(now)| {
        assert x[i] == NatToString(now)[i - |prefix|];
      }
    }
  }

  lemma TrackPathIs(cwd: string, prefix: string, now: nat)
    requires PlainDir(cwd) && prefix != "" && '/' !in prefix
    ensures PlainDir(DownloadsDir(cwd))
    ensures TrackPath(cwd, prefix, now) == DownloadsDir(cwd) + "/" + prefix + NatToString(now) + ".mp4"
  {
    TrackPathAsChild(cwd, prefix, now);
  }

  /** The track's file is a plain child of the downloads directory. */
  lemma TrackPathAsChild(cwd: string, prefix: string, now: nat)
    requires PlainDir(cwd) && prefix != "" && '/' !in prefix
    ensures PlainDir(DownloadsDir(cwd))
    ensures var name := prefix + NatToString(now) + ".mp4";
      PlainSegment(name) && TrackPath(cwd, prefix, now) == DownloadsDir(cwd) + "/" + name
  {
    JoinChild(cwd, "downloads");
    TrackNameIsPlain(prefix, now);
    JoinChild(DownloadsDir(cwd), prefix + NatToString(now) + ".mp4");
  }

  /** In a plain working directory the three paths lie side by side in
      `<cwd>/downloads`, share the timestamp, and differ. */
  lemma TrackPaths(cwd: string, now: nat)
    requires PlainDir(cwd)
    ensures PlainDir(DownloadsDir(cwd))
    ensures VideoPath(cwd, now) == DownloadsDir(cwd) + "/video_" + NatToString(now) + ".mp4"
    ensures AudioPath(cwd, now) == DownloadsDir(cwd) + "/audio_" + NatToString(now) + ".mp4"
    ensures OutputPath(cwd, now) == DownloadsDir(cwd) + "/output_" + NatToString(now) + ".mp4"
    ensures VideoPath(cwd, now) != AudioPath(cwd, now) && VideoPath(cwd, now) != OutputPath(cwd, now)
    ensures AudioPath(cwd, now) != OutputPath(cwd, now)
  {
    TrackPathSpelled(cwd, "video_", "/video_", now);
    TrackPathSpelled(cwd, "audio_", "/audio_", now);
    TrackPathSpelled(cwd, "output_", "/output_", now);
    TrackPathsDiffer(cwd, "video_", "audio_", now);
    TrackPathsDiffer(cwd, "video_", "output_", now);
    TrackPathsDiffer(cwd, "audio_", "output_", now);
  }

  /** The track's path, with the separator written into the prefix. */
  lemma TrackPathSpelled(cwd: string, prefix: string, slashed: string, now: nat)
    requires PlainDir(cwd) && prefix != "" && '/' !in prefix && slashed == "/" + prefix
    ensures PlainDir(DownloadsDir(cwd))
    ensures TrackPath(cwd, prefix, now) == DownloadsDir(cwd) + slashed + NatToString(now) + ".mp4"
  {
    var d, t := DownloadsDir(cwd), NatToString(now);
    TrackPathAsChild(cwd, prefix, now);
    ConcatAssoc(d, "/", prefix);
    ConcatAssoc(d + "/", prefix, t + ".mp4");
    ConcatAssoc(prefix, t, ".mp4");
    ConcatAssoc(d + slashed, t, ".mp4");
  }

  /** Tracks whose prefixes start differently have different paths. */
  lemma TrackPathsDiffer(cwd: string, p: string, q: string, now: nat)
    requires PlainDir(cwd) && p != "" && '/' !in p && q != "" && '/' !in q && p[0] != q[0]
    ensures TrackPath(cwd, p, now) != TrackPath(cwd, q, now)
  {
    TrackPathAsChild(cwd, p, now);
    TrackPathAsChild(cwd, q, now);
    var d, t := DownloadsDir(cwd), NatToString(now);
    ChildrenDiffer(d, p + t + ".mp4", q + t + ".mp4");
  }

  lemma ChildrenDiffer(d: string, x: string, y: string)
    requires x != [] && y != [] && x[0] != y[0]
    ensures d + "/" + x != d + "/" + y
  {
    assert (d + "/" + x)[|d| + 1] == x[0];
    assert (d + "/" + y)[|d| + 1] == y[0];
  }

  /** Everything `downloadAndProcess` depends on besides the working
      directory: the headless run, the visible run used on an expired
      session, the clock, both curl runs, ffmpeg's outcome and the paths
      whose removal the system refuses. */
  datatype DownloadRuns = DownloadRuns(
    headless: BrowserRun, visible: BrowserRun, now: nat,
    video: CurlRun, audio: CurlRun, ffmpeg: Result<()>, refused: set<string>)

  predicate WellFormedRuns(runs: DownloadRuns) {
    WellFormedRun(runs.headless) && WellFormedRun(runs.visible)
  }

  /** The streams: a headless run, and one visible run only when the
      headless one found the session expired. */
  function CaptureOutcome(runs: DownloadRuns): Result<StreamResult>
    requires WellFormedRuns(runs)
  {
    var first := BrowserOutcome(runs.headless, true);
    if first.Err? && first.message == SESSION_EXPIRED then BrowserOutcome(runs.visible, false) else first
  }

  /** The result of `downloadAndProcess`. */
  function DownloadOutcome(cwd: string, runs: DownloadRuns): Result<string>
    requires WellFormedRuns(runs)
  {
    var streams := CaptureOutcome(runs);
    if streams.Err? then Err(streams.message)
    else if CurlOutcome(runs.video).Err? then Err(CurlOutcome(runs.video).message)
    else if CurlOutcome(runs.audio).Err? then Err(CurlOutcome(runs.audio).message)
    else if runs.ffmpeg.Err? then Err(runs.ffmpeg.message)
    else Ok(OutputPath(cwd, runs.now))
  }

  function CurlFiles(files: set<string>, path: string, run: CurlRun): set<string> {
    if run.CurlWrote? then files + {path} else files
  }

  /** The files after `downloadAndProcess`: each curl run that wrote adds
      its track; a merge adds the output, and then the video track is
      removed and, only if that worked, the audio track. */
  function FilesAfterDownload(files: set<string>, cwd: string, runs: DownloadRuns): set<string>
    requires WellFormedRuns(runs)
  {
    var v := VideoPath(cwd, runs.now);
    var a := AudioPath(cwd, runs.now);
    if CaptureOutcome(runs).Err? then files
    else
      var f1 := CurlFiles(files, v, runs.video);
      if CurlOutcome(runs.video).Err? then f1
      else
        var f2 := CurlFiles(f1, a, runs.audio);
        if CurlOutcome(runs.audio).Err? || runs.ffmpeg.Err? then f2
        else
          var f3 := f2 + {OutputPath(cwd, runs.now)};
          if v !in runs.refused then
            if a !in runs.refused then f3 - {v} - {a} else f3 - {v}
          else f3
  }

  /** `downloadAndProcess(fileUrl)`; `cwd` is the process's working
      directory. */
  method DownloadAndProcess(disk: LocalDisk, cwd: string, runs: DownloadRuns) returns (r: Result<string>)
    requires WellFormedRuns(runs)
    modifies disk
    ensures r == DownloadOutcome(cwd, runs)
    ensures disk.files == FilesAfterDownload(old(disk.files), cwd, runs)
  {
    var result := RunBrowser(runs.headless, true);
    if result.Err? {
      if result.message == SESSION_EXPIRED {
        result := RunBrowser(runs.visible, false);
        if result.Err? {
          return Err(result.message);
        }
      } else {
        return Err(result.message);
      }
    }
    var videoPath := VideoPath(cwd, runs.now);
    var audioPath := AudioPath(cwd, runs.now);
    var finalPath := OutputPath(cwd, runs.now);
    var got := DownloadWithCurl(disk, videoPath, runs.video);
    if got.Err? {
      return Err(got.message);
    }
    got := DownloadWithCurl(disk, audioPath, runs.audio);
    if got.Err? {
      return Err(got.message);
    }
    if runs.ffmpeg.Err? {
      return Err(runs.ffmpeg.message);
    }
    disk.Write(finalPath);
    // temporary tracks: a failure ends the clean-up and is ignored
    var ok := disk.Unlink(videoPath, runs.refused);
    if ok {
      ok := disk.Unlink(audioPath, runs.refused);
    }
    r := Ok(finalPath);
  }

  /** A successful download: the merged file exists at the output path,
      both tracks passed the size threshold, and both temporary tracks
      are gone unless the system refused; a failure leaves no output. */
  lemma DownloadSucceeds(files: set<string>, cwd: string, runs: DownloadRuns)
    requires WellFormedRuns(runs) && PlainDir(cwd)
    ensures DownloadOutcome(cwd, runs).Ok? ==>
      DownloadOutcome(cwd, runs).value == OutputPath(cwd, runs.now) &&
      runs.video.CurlWrote? && runs.video.size >= MIN_DOWNLOAD_BYTES &&
      runs.audio.CurlWrote? && runs.audio.size >= MIN_DOWNLOAD_BYTES &&
      OutputPath(cwd, runs.now) in FilesAfterDownload(files, cwd, runs) &&
      (VideoPath(cwd, runs.now) !in runs.refused ==> VideoPath(cwd, runs.now) !in FilesAfterDownload(files, cwd, runs)) &&
      (VideoPath(cwd, runs.now) !in runs.refused && AudioPath(cwd, runs.now) !in runs.refused ==>
        AudioPath(cwd, runs.now) !in FilesAfterDownload(files, cwd, runs))
    ensures DownloadOutcome(cwd, runs).Err? && OutputPath(cwd, runs.now) !in files ==>
      OutputPath(cwd, runs.now) !in FilesAfterDownload(files, cwd, runs)
  {
    TrackPaths(cwd, runs.now);
  }

  /** The visible run is used only after an expired headless session, and
      its failure is final: at most one retry. */
  lemma RetryOnlyOnExpiry(runs: DownloadRuns)
    requires WellFormedRuns(runs)
    ensures BrowserOutcome(runs.headless, true) != Err(SESSION_EXPIRED) ==>
      CaptureOutcome(runs) == BrowserOutcome(runs.headless, true)
    ensures CaptureOutcome(runs) != Err(SESSION_EXPIRED)
  {
    BrowserOutcomeFirstSeen(runs.visible, false);
  }
}
