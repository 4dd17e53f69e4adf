/** `scanFolderForVideos` of the folder worker: the folder name read from
    the Google Drive page and the video files listed on it. The browser is
    not modelled: what the page shows comes in as a `Page` value. */
module FolderScan {
  import opened Wrappers
  import opened Strings

  const DEFAULT_FOLDER_NAME: string := "Transfer"
  const DRIVE_WORDS: string := "Google Drive"
  const SESSION_EXPIRED_MESSAGE: string :=
    "SESSION_EXPIRED: Google session expired. Please restart server and login again."

  // ------------------------------------------------------ name from the title

  /** `\s*-\s*Google Drive` matches at the start of `t`. White space is
      never a hyphen, so the first `\s*` takes the whole run before it. */
  predicate SeparatorAt(t: string)
    decreases |t|
  {
    if |t| == 0 then false
    else if IsJsSpace(t[0]) then SeparatorAt(t[1..])
    else t[0] == '-' && DriveWordsAt(t[1..])
  }

  /** `\s*Google Drive` matches at the start of `t`. */
  predicate DriveWordsAt(t: string)
    decreases |t|
  {
    if |t| > 0 && IsJsSpace(t[0]) then DriveWordsAt(t[1..]) else IsPrefix(DRIVE_WORDS, t)
  }

  /** `.` matches every character of `s` from `lo` up to `hi`. */
  predicate OnOneLine(s: string, lo: int, hi: int)
    requires 0 <= lo <= hi <= |s|
  {
    forall i :: lo <= i < hi ==> !IsLineTerminator(s[i])
  }

  /** The length of the lazy capture `(.+?)`, tried from length `n` up:
      the shortest one-line prefix, at least `n` long, that a separator
      follows. */
  function CaptureEnd(title: string, n: nat): (r: Option<nat>)
    requires 1 <= n
    ensures r.Some? ==>
      n <= r.value <= |title| && OnOneLine(title, n - 1, r.value) && SeparatorAt(title[r.value..])
    ensures r.Some? ==> forall m :: n <= m < r.value ==> !SeparatorAt(title[m..])
    ensures r.None? ==>
      forall m :: n <= m <= |title| && OnOneLine(title, n - 1, m) ==> !SeparatorAt(title[m..])
    decreases |title| + 1 - n
  {
    if n > |title| || IsLineTerminator(title[n - 1]) then None
    else if SeparatorAt(title[n..]) then Some(n)
    else CaptureEnd(title, n + 1)
  }

  /** Group 1 of `title.match(/^(.+?)\s*-\s*Google Drive/)`: the shortest
      non-empty one-line prefix followed by the separator; none when no
      such prefix exists. */
  function TitleCapture(title: string): (r: Option<string>)
    ensures r.Some? ==>
      1 <= |r.value| && IsPrefix(r.value, title) && OnOneLine(title, 0, |r.value|) &&
      SeparatorAt(title[|r.value|..])
    ensures r.Some? ==> forall m :: 1 <= m < |r.value| ==> !SeparatorAt(title[m..])
    ensures r.None? ==>
      forall m :: 1 <= m <= |title| && OnOneLine(title, 0, m) ==> !SeparatorAt(title[m..])
  {
    match CaptureEnd(title, 1)
    case Some(n) => Some(title[..n])
    case None => None
  }

  /** Text before a separator holds no character but white space, unless
      it holds a hyphen. */
  lemma {:induction false} SeparatorNeedsSpaces(u: string, v: string)
    requires SeparatorAt(u + v)
    requires forall i :: 0 <= i < |u| ==> u[i] != '-'
    ensures AllSpace(u)
    decreases |u|
  {
    if |u| > 0 && IsJsSpace(u[0]) {
      assert (u + v)[1..] == u[1..] + v;
      SeparatorNeedsSpaces(u[1..], v);
    }
  }

  /** The title Google Drive gives a folder page, `<name> - Google Drive`
      with anything after, yields the trimmed name when the name is one
      line without hyphens. */
  lemma DrivePageTitle(x: string, rest: string, meta: Result<seq<Option<PageElement>>>)
    requires 1 <= |x| && OnOneLine(x, 0, |x|)
    requires forall i :: 0 <= i < |x| ==> x[i] != '-'
    ensures TitleCapture(x + " - " + DRIVE_WORDS + rest).Some?
    ensures FolderName(x + " - " + DRIVE_WORDS + rest, meta) == Trim(x)
  {
    var v := " - " + DRIVE_WORDS + rest;
    var t := x + v;
    assert x + " - " + DRIVE_WORDS + rest == t;
    assert t[|x|..] == v;
    DriveSuffixSeparates(v, rest);
    assert OnOneLine(t, 0, |x|);
    var c := TitleCapture(t).value;
    var n := |c|;
    assert n <= |x|;
    assert t[n..] == x[n..] + v;
    SeparatorNeedsSpaces(x[n..], v);
    assert c == x[..n];
    assert x == x[..n] + x[n..];
    TrimIgnoresTrailingSpace(x[..n], x[n..]);
  }

  /** The suffix ` - Google Drive...` starts with the separator the
      title pattern stops at. */
  lemma DriveSuffixSeparates(v: string, rest: string)
    requires v == " - " + DRIVE_WORDS + rest
    ensures SeparatorAt(v[1..])
  {
    assert v[1..] == "- " + DRIVE_WORDS + rest;
    assert v[2..] == " " + DRIVE_WORDS + rest;
    assert v[3..] == DRIVE_WORDS + rest;
    assert DriveWordsAt(v[3..]);
    assert DriveWordsAt(v[2..]);
  }

  // ---------------------------------------------------- name from the page

  /** The first element a selector finds: its `content` attribute, if any,
      and its text. */
  datatype PageElement = PageElement(content: Option<string>, text: string)

  /** `el.getAttribute('content') || el.textContent`. */
  function ElementText(el: PageElement): string {
    if el.content.Some? && el.content.value != "" then el.content.value else el.text
  }

  /** An element whose text the fallback takes. */
  predicate Accepts(el: Option<PageElement>) {
    el.Some? && ElementText(el.value) != "" && !Contains(ElementText(el.value), DRIVE_WORDS)
  }

  /** The index of the first element accepted. */
  function FirstAccepted(els: seq<Option<PageElement>>): (r: Option<nat>)
    ensures r.Some? ==>
      r.value < |els| && Accepts(els[r.value]) && (forall j :: 0 <= j < r.value ==> !Accepts(els[j]))
    ensures r.None? ==> forall j :: 0 <= j < |els| ==> !Accepts(els[j])
  {
    if |els| == 0 then None
    else if Accepts(els[0]) then Some(0)
    else match FirstAccepted(els[1..])
      case None => None
      case Some(i) => Some(i + 1)
  }

  /** The fallback's loop over the selectors `og:title`, `title`,
      `[data-folder-name]` and `h1`, given the element each finds (`None`
      where none): the trimmed text of the first element accepted. */
  function MetaName(els: seq<Option<PageElement>>): (r: Option<string>)
    ensures r.None? <==> forall i :: 0 <= i < |els| ==> !Accepts(els[i])
    ensures r.Some? ==>
      exists i :: 0 <= i < |els| && Accepts(els[i]) && (forall j :: 0 <= j < i ==> !Accepts(els[j])) &&
        r.value == Trim(ElementText(els[i].value))
  {
    match FirstAccepted(els)
    case None => None
    case Some(i) => Some(Trim(ElementText(els[i].value)))
  }

  /** The trimmed text of a string lacking `sub` lacks it too. */
  lemma TrimKeepsAbsence(s: string, sub: string)
    requires !Contains(s, sub)
    ensures !Contains(Trim(s), sub)
  {
    var lo := |s| - |TrimStart(s)|;
    var t := Trim(s);
    assert OccursAt(s, t, lo);
    assert t == s[lo..lo + |t|];
    if Contains(t, sub) {
      ContainsInSlice(s, lo, lo + |t|, sub);
    }
  }

  /** A string shorter than `sub` does not contain it. */
  lemma ShorterLacks(s: string, sub: string)
    requires |s| < |sub|
    ensures !Contains(s, sub)
  {
    ContainsAt(s, sub);
  }

  /** The name the fallback gives: the page's name when it finds a
      non-empty one, otherwise "Transfer". `meta` is `Err` when evaluating
      the fallback in the page fails, which the scan catches. */
  function FallbackName(meta: Result<seq<Option<PageElement>>>): (r: string)
    ensures meta.Ok? && MetaName(meta.value).Some? && MetaName(meta.value).value != "" ==>
      r == MetaName(meta.value).value
    ensures (meta.Err? || MetaName(meta.value).None? || MetaName(meta.value).value == "") ==>
      r == DEFAULT_FOLDER_NAME
    ensures r != [] && !IsJsSpace(r[0]) && !IsJsSpace(r[|r| - 1]) && !Contains(r, DRIVE_WORDS)
  {
    ShorterLacks(DEFAULT_FOLDER_NAME, DRIVE_WORDS);
    if meta.Ok? && MetaName(meta.value).Some? && MetaName(meta.value).value != "" then
      var i := FirstAccepted(meta.value).value;
      TrimKeepsAbsence(ElementText(meta.value[i].value), DRIVE_WORDS);
      MetaName(meta.value).value
    else DEFAULT_FOLDER_NAME
  }

  /** The folder name the scan reports: the trimmed title capture when the
      title matches (possibly empty); otherwise the fallback's name. */
  function FolderName(title: string, meta: Result<seq<Option<PageElement>>>): (r: string)
    ensures TitleCapture(title).Some? ==> r == Trim(TitleCapture(title).value)
    ensures TitleCapture(title).None? ==> r == FallbackName(meta)
    ensures r == [] || (!IsJsSpace(r[0]) && !IsJsSpace(r[|r| - 1]))
    ensures TitleCapture(title).None? ==> r != [] && !Contains(r, DRIVE_WORDS)
  {
    match TitleCapture(title)
    case Some(c) => Trim(c)
    case None => FallbackName(meta)
  }

  // ------------------------------------------------------------ the videos

  /** An element carrying `data-id`: the id, and the `data-tooltip` of its
      first descendant that has one (`None` when there is none). */
  datatype Entry = Entry(dataId: string, tooltip: Option<string>)

  datatype VideoLink = VideoLink(url: string, name: string)

  /** `nameEl?.getAttribute('data-tooltip') || ''`. */
  function TooltipName(e: Entry): string {
    e.tooltip.GetOr("")
  }

  /** The lower-cased name mentions one of the five video extensions. */
  predicate HasVideoExtension(name: string) {
    var lower := ToLower(name);
    Contains(lower, ".mp4") || Contains(lower, ".mkv") || Contains(lower, ".avi") ||
    Contains(lower, ".mov") || Contains(lower, ".webm")
  }

  /** The entries the scan keeps: a video name and an id that is neither
      empty nor the `_gd` placeholder. */
  predicate IsVideo(e: Entry) {
    HasVideoExtension(TooltipName(e)) && e.dataId != "" && e.dataId != "_gd"
  }

  /** The words `/\s+(Video|MKV|AVI|MOV|WEBM|MP4)$/i` strips, upper-cased.
      Without the `u` flag, `i` folds ASCII letters only. */
  const SUFFIX_WORDS: seq<string> := ["VIDEO", "MKV", "AVI", "MOV", "WEBM", "MP4"]

  /** `s` ends with the upper-case word `w`, ignoring ASCII case. */
  predicate EndsWithWord(s: string, w: string) {
    |w| <= |s| && forall j :: 0 <= j < |w| ==> UpperChar(s[|s| - |w| + j]) == w[j]
  }

  function FirstEnding(s: string, ws: seq<string>): (r: Option<string>)
    ensures r.Some? ==> r.value in ws && EndsWithWord(s, r.value)
    ensures r.None? ==> forall w :: w in ws ==> !EndsWithWord(s, w)
  {
    if |ws| == 0 then None
    else if EndsWithWord(s, ws[0]) then Some(ws[0])
    else FirstEnding(s, ws[1..])
  }

  /** The suffix word `s` ends with, if any. */
  function SuffixWord(s: string): (r: Option<string>)
    ensures r.Some? ==> r.value in SUFFIX_WORDS && EndsWithWord(s, r.value)
    ensures r.None? ==> forall w :: w in SUFFIX_WORDS ==> !EndsWithWord(s, w)
  {
    FirstEnding(s, SUFFIX_WORDS)
  }

  /** A suffix word is made of letters and digits, so the characters it
      matches are not dots. */
  lemma WordHasNoDot(s: string, w: string)
    requires w in SUFFIX_WORDS && EndsWithWord(s, w)
    ensures forall k :: |s| - |w| <= k < |s| ==> s[k] != '.'
  {
    forall k | |s| - |w| <= k < |s| ensures s[k] != '.' {
      assert UpperChar(s[|s| - |w| + (k - (|s| - |w|))]) == w[k - (|s| - |w|)];
    }
  }

  /** `name.replace(/\s+(Video|MKV|AVI|MOV|WEBM|MP4)$/i, '')`: a name ending
      in white space and a type word loses both, the whole white-space run
      included; any other name is kept. */
  function CleanName(s: string): (r: string)
    ensures IsPrefix(r, s)
    ensures r != s <==>
      SuffixWord(s).Some? && |SuffixWord(s).value| < |s| && IsJsSpace(s[|s| - |SuffixWord(s).value| - 1])
    ensures r != s ==>
      |r| < |s| - |SuffixWord(s).value| && AllSpace(s[|r|..|s| - |SuffixWord(s).value|]) &&
      (r == [] || !IsJsSpace(r[|r| - 1]))
  {
    match SuffixWord(s)
    case Some(w) =>
      if |w| < |s| && IsJsSpace(s[|s| - |w| - 1]) then
        var body := s[..|s| - |w|];
        TrimEnd(body)
      else s
    case None => s
  }

  function VideoUrl(fileId: string): string {
    "https://drive.google.com/file/d/" + fileId + "/view"
  }

  function VideoOf(e: Entry): VideoLink {
    VideoLink(VideoUrl(e.dataId), CleanName(TooltipName(e)))
  }

  /** The links the page's extraction collects, in document order. */
  function Videos(es: seq<Entry>): (vs: seq<VideoLink>)
    ensures |vs| <= |es|
  {
    if |es| == 0 then []
    else
      var last := es[|es| - 1];
      Videos(es[..|es| - 1]) + if IsVideo(last) then [VideoOf(last)] else []
  }

  /** The links are exactly those of the video entries. */
  lemma {:induction false} VideosSelect(es: seq<Entry>)
    ensures forall v :: v in Videos(es) <==> exists e :: e in es && IsVideo(e) && v == VideoOf(e)
  {
    if |es| > 0 {
      var init := es[..|es| - 1];
      VideosSelect(init);
      assert es == init + [es[|es| - 1]];
    }
  }

  /** The `forEach` over the `[data-id]` elements. */
  method CollectVideos(entries: seq<Entry>) returns (items: seq<VideoLink>)
    ensures items == Videos(entries)
  {
    items := [];
    var k := 0;
    while k < |entries|
      invariant 0 <= k <= |entries|
      invariant items == Videos(entries[..k])
    {
      var e := entries[k];
      assert entries[..k + 1][..k] == entries[..k];
      if HasVideoExtension(TooltipName(e)) {
        if e.dataId != "" && e.dataId != "_gd" {
          items := items + [VideoLink(VideoUrl(e.dataId), CleanName(TooltipName(e)))];
        }
      }
      k := k + 1;
    }
    assert entries[..k] == entries;
  }

  /** The links whose name is empty or white space. */
  function Unnamed(vs: seq<VideoLink>): (r: seq<VideoLink>)
    ensures |r| <= |vs|
    ensures forall v :: v in r <==> v in vs && Trim(v.name) == ""
  {
    if |vs| == 0 then []
    else (if Trim(vs[0].name) == "" then [vs[0]] else []) + Unnamed(vs[1..])
  }

  /** A name that mentions a video extension holds a dot. */
  lemma ExtensionDot(name: string) returns (i: nat)
    requires HasVideoExtension(name)
    ensures i < |name| && name[i] == '.'
  {
    var lower := ToLower(name);
    var x: string;
    if Contains(lower, ".mp4") { x := ".mp4"; }
    else if Contains(lower, ".mkv") { x := ".mkv"; }
    else if Contains(lower, ".avi") { x := ".avi"; }
    else if Contains(lower, ".mov") { x := ".mov"; }
    else { x := ".webm"; }
    ContainsAt(lower, x);
    i :| OccursAt(lower, x, i);
    assert lower[i] == x[0];
  }

  /** Stripping a type word never removes a dot. */
  lemma CleanKeepsDot(s: string, i: nat)
    requires i < |s| && s[i] == '.'
    ensures i < |CleanName(s)| && CleanName(s)[i] == '.'
  {
    var r := CleanName(s);
    if r != s {
      var w := SuffixWord(s).value;
      WordHasNoDot(s, w);
    }
  }

  /** A video name holds the dot of its extension, and stripping a type
      word never reaches it: the name of a collected video is never blank. */
  lemma VideoNameNotBlank(e: Entry)
    requires IsVideo(e)
    ensures Trim(VideoOf(e).name) != ""
  {
    var i := ExtensionDot(TooltipName(e));
    CleanKeepsDot(TooltipName(e), i);
    TrimKeepsNonSpace(VideoOf(e).name, i);
  }

  lemma {:induction false} NoneUnnamed(vs: seq<VideoLink>)
    requires forall v :: v in vs ==> Trim(v.name) != ""
    ensures Unnamed(vs) == []
  {
    if |vs| > 0 {
      assert vs[0] in vs;
      NoneUnnamed(vs[1..]);
    }
  }

  /** No collected video is unnamed. */
  lemma VideosAllNamed(es: seq<Entry>)
    ensures Unnamed(Videos(es)) == []
  {
    VideosSelect(es);
    forall v | v in Videos(es) ensures Trim(v.name) != "" {
      var e :| e in es && IsVideo(e) && v == VideoOf(e);
      VideoNameNotBlank(e);
    }
    NoneUnnamed(Videos(es));
  }

  // ------------------------------------------------------------- the scan

  /** What the browser sees once the folder page has loaded and scrolled:
      the title, the fallback's elements (`Err` when evaluating it fails),
      and the `[data-id]` elements in document order. */
  datatype Page = Page(title: string, meta: Result<seq<Option<PageElement>>>, entries: seq<Entry>)

  datatype ScanResult = ScanResult(videos: seq<VideoLink>, folderName: string)

  function UnnamedMessage(n: nat): string {
    "Failed to extract names for " + NatToString(n) + " file(s). Cannot proceed without valid file names."
  }

  /** The outcome of a scan. `sessionValid` is the browser's session check;
      `page` is `Err` with the browser's message when loading the page
      fails. */
  function Scan(sessionValid: bool, page: Result<Page>): Result<ScanResult> {
    if !sessionValid then Err(SESSION_EXPIRED_MESSAGE)
    else match page
      case Err(m) => Err(m)
      case Ok(p) =>
        var vs := Videos(p.entries);
        if |Unnamed(vs)| > 0 then Err(UnnamedMessage(|Unnamed(vs)|))
        else Ok(ScanResult(vs, FolderName(p.title, p.meta)))
  }

  /** The name check after extraction never fails: a loaded page always
      scans to its videos and folder name, and a scan fails only on an
      expired session or a page that does not load. */
  lemma ScanOutcome(sessionValid: bool, page: Result<Page>)
    ensures !sessionValid ==> Scan(sessionValid, page) == Err(SESSION_EXPIRED_MESSAGE)
    ensures sessionValid && page.Err? ==> Scan(sessionValid, page) == Err(page.message)
    ensures sessionValid && page.Ok? ==>
      Scan(sessionValid, page) == Ok(ScanResult(Videos(page.value.entries), FolderName(page.value.title, page.value.meta)))
  {
    if page.Ok? {
      VideosAllNamed(page.value.entries);
    }
  }

  /** `scanFolderForVideos`. */
  method ScanFolderForVideos(sessionValid: bool, page: Result<Page>) returns (r: Result<ScanResult>)
    ensures r == Scan(sessionValid, page)
  {
    if !sessionValid {
      return Err(SESSION_EXPIRED_MESSAGE);
    }
    if page.Err? {
      return Err(page.message);
    }
    var p := page.value;
    var folderName := FolderName(p.title, p.meta);
    var videoLinks := CollectVideos(p.entries);
    var invalid := Unnamed(videoLinks);
    if |invalid| > 0 {
      return Err(UnnamedMessage(|invalid|));
    }
    r := Ok(ScanResult(videoLinks, folderName));
  }
}
