/** The lesson viewer (screens/ModuleContentScreen.tsx): paging through a
    module's steps or showing one sub-module, deciding how a page counts as
    completed, starting the reflection chat, and recognising YouTube and
    Google Drive links. */
module ModuleContent {
  import opened Text
  import opened Types
  import opened UserData

  // ---- Links ---------------------------------------------------------------

  const YouTubeHost := "youtube.com"
  const YouTubeShortHost := "youtu.be"
  const DriveHost := "drive.google.com"
  const FileMarker := "/file/d/"
  const IdMarker := "id="

  /** `isYouTube`. */
  predicate IsYouTube(url: string)
  {
    url != "" && (Contains(url, YouTubeHost) || Contains(url, YouTubeShortHost))
  }

  /** Every watch link and every short link is recognised, whatever the
      scheme and host prefix before it and whatever follows. */
  lemma YouTubeLinks(before: string, video: string)
    ensures IsYouTube(before + YouTubeHost + "/watch?v=" + video)
    ensures IsYouTube(before + YouTubeShortHost + "/" + video)
  {
    ContainsMiddle(before, YouTubeHost, "/watch?v=" + video);
    assert before + YouTubeHost + "/watch?v=" + video == before + YouTubeHost + ("/watch?v=" + video);
    ContainsMiddle(before, YouTubeShortHost, "/" + video);
    assert before + YouTubeShortHost + "/" + video == before + YouTubeShortHost + ("/" + video);
  }

  /** The characters of `[a-zA-Z0-9_-]`. */
  predicate IdChar(c: char)
  {
    'a' <= c <= 'z' || 'A' <= c <= 'Z' || '0' <= c <= '9' || c == '_' || c == '-'
  }

  predicate AllId(s: string)
  {
    forall i :: 0 <= i < |s| ==> IdChar(s[i])
  }

  /** The length of the run of id characters at the start of `s`. */
  function RunLength(s: string): (k: nat)
    ensures k <= |s| && AllId(s[..k])
    ensures k < |s| ==> !IdChar(s[k])
  {
    if s != [] && IdChar(s[0]) then
      var k := 1 + RunLength(s[1..]);
      assert s[..k] == [s[0]] + s[1..][..k - 1];
      k
    else 0
  }

  /** A run of id characters stops at the first other character. */
  lemma {:induction false} RunLengthAppend(a: string, b: string)
    requires AllId(a) && (b == [] || !IdChar(b[0]))
    ensures RunLength(a + b) == |a|
  {
    if a == [] {
      assert a + b == b;
    } else {
      assert (a + b)[1..] == a[1..] + b;
      RunLengthAppend(a[1..], b);
    }
  }

  lemma OccursChar(s: string, p: string, i: nat, k: nat)
    requires k < |p|
    ensures OccursAt(s, p, i) ==> i + k < |s| && s[i + k] == p[k]
  {
    if OccursAt(s, p, i) {
      assert s[i..i + |p|][k] == s[i + k];
    }
  }

  /** The pattern `marker([a-zA-Z0-9_-]+)` matches at `i`. */
  predicate MatchAt(url: string, marker: string, i: nat)
  {
    OccursAt(url, marker, i) && i + |marker| < |url| && IdChar(url[i + |marker|])
  }

  /** The leftmost match at or after `from`. */
  function FirstMatch(url: string, marker: string, from: nat): (r: Option<nat>)
    requires from <= |url|
    ensures r.Some? ==> from <= r.value && MatchAt(url, marker, r.value)
    ensures r.Some? ==> forall j :: from <= j < r.value ==> !MatchAt(url, marker, j)
    ensures r.None? ==> forall j :: from <= j ==> !MatchAt(url, marker, j)
    decreases |url| - from
  {
    if from == |url| then None
    else if MatchAt(url, marker, from) then Some(from)
    else FirstMatch(url, marker, from + 1)
  }

  /** `id` is the whole run of id characters starting at `k`. */
  predicate RunAt(url: string, k: nat, id: string)
  {
    |id| > 0 && AllId(id) && k + |id| <= |url| && url[k..k + |id|] == id
    && (k + |id| == |url| || !IdChar(url[k + |id|]))
  }

  /** `i` is the leftmost match of the pattern. */
  predicate Leftmost(url: string, marker: string, i: nat)
  {
    MatchAt(url, marker, i) && forall j :: 0 <= j < i ==> !MatchAt(url, marker, j)
  }

  /** `url.match(pattern)[1]` for `marker([a-zA-Z0-9_-]+)`. */
  function Capture(url: string, marker: string): (r: Option<string>)
    ensures r.Some? ==> |r.value| > 0 && AllId(r.value)
  {
    match FirstMatch(url, marker, 0)
    case None => None
    case Some(i) =>
      var k := i + |marker|;
      var n := RunLength(url[k..]);
      assert url[k..][0] == url[k];
      assert url[k..][..n] == url[k..k + n];
      Some(url[k..k + n])
  }

  /** The capture is present exactly when the pattern matches somewhere, and
      then it is the greedy run after the leftmost match. */
  lemma CaptureSpec(url: string, marker: string)
    ensures Capture(url, marker).None? <==> forall j: nat :: !MatchAt(url, marker, j)
    ensures Capture(url, marker).Some? ==>
      exists i: nat :: Leftmost(url, marker, i) && RunAt(url, i + |marker|, Capture(url, marker).value)
  {
    var f := FirstMatch(url, marker, 0);
    if f.Some? {
      var i := f.value;
      var k := i + |marker|;
      var n := RunLength(url[k..]);
      assert url[k..][0] == url[k];
      assert url[k..][..n] == url[k..k + n];
      if k + n < |url| {
        assert url[k..][n] == url[k + n];
      }
      assert Leftmost(url, marker, i) && RunAt(url, k, url[k..k + n]);
    }
  }

  /** `getGoogleDriveId`: the id after `/file/d/`, else the id after `id=`. */
  function DriveId(url: string): (r: Option<string>)
    ensures r.Some? ==> |r.value| > 0 && AllId(r.value)
  {
    if url == "" then None
    else
      var f := Capture(url, FileMarker);
      if f.Some? then f else Capture(url, IdMarker)
  }

  /** The `/file/d/` form wins whenever it matches; the `id=` form is read
      only when it does not; with neither there is no id. */
  lemma DriveIdSpec(url: string)
    ensures (exists j: nat :: MatchAt(url, FileMarker, j)) ==>
      exists i: nat :: Leftmost(url, FileMarker, i) && RunAt(url, i + |FileMarker|, DriveId(url).value)
    ensures (forall j: nat :: !MatchAt(url, FileMarker, j)) && (exists j: nat :: MatchAt(url, IdMarker, j)) ==>
      exists i: nat :: Leftmost(url, IdMarker, i) && RunAt(url, i + |IdMarker|, DriveId(url).value)
    ensures DriveId(url).None? <==>
      (forall j: nat :: !MatchAt(url, FileMarker, j)) && (forall j: nat :: !MatchAt(url, IdMarker, j))
  {
    CaptureSpec(url, FileMarker);
    CaptureSpec(url, IdMarker);
    if url == "" {
      assert forall j: nat :: !OccursAt(url, FileMarker, j);
      assert forall j: nat :: !OccursAt(url, IdMarker, j);
    }
  }

  const DrivePrefix := "https://drive.google.com"

  /** The embedded player's address for a Drive id. */
  function PreviewUrl(id: string): string
  {
    DrivePrefix + FileMarker + id + "/preview"
  }

  /** Reading the id back from the player address the screen builds gives
      the id it was built from. */
  lemma DriveIdRoundTrip(id: string)
    requires |id| > 0 && AllId(id)
    ensures DriveId(PreviewUrl(id)) == Some(id)
  {
    var url := PreviewUrl(id);
    var head := DrivePrefix + FileMarker;
    assert |head| == 32;
    assert url == head + (id + "/preview");
    assert forall k :: 0 <= k < 32 ==> url[k] == head[k];
    assert 'f' !in DrivePrefix;
    forall j: nat | j < 24 ensures !MatchAt(url, FileMarker, j) {
      assert url[j + 1] != FileMarker[1];
      OccursChar(url, FileMarker, j, 1);
    }
    assert url[24..32] == FileMarker;
    assert MatchAt(url, FileMarker, 24);
    assert FirstMatch(url, FileMarker, 0) == Some(24);
    assert url[32..] == id + "/preview";
    RunLengthAppend(id, "/preview");
    assert url[32..32 + |id|] == id;
  }

  // ---- Paging --------------------------------------------------------------

  /** The request that opens the reflection chat. */
  datatype Reflection = Reflection(initialMessage: string, title: string, botId: Option<string>, spaceId: Option<string>)

  /** `isLastPage`. */
  predicate IsLastPage(subModuleMode: bool, currentStep: int, totalSteps: int)
  {
    subModuleMode || currentStep == totalSteps - 1
  }

  /** `isReflectiveStep`: the last page, with a prompt to reflect on. */
  predicate IsReflective(last: bool, prompt: Option<string>)
  {
    last && Truthy(prompt)
  }

  /** `isNativeAudioStep` as written: an audio link to neither Drive nor youtube.com. */
  predicate NativeAudioAsWritten(audioUrl: Option<string>)
  {
    Truthy(audioUrl) && !Contains(audioUrl.value, DriveHost) && !Contains(audioUrl.value, YouTubeHost)
  }

  /** The page renders the `<audio>` player, whose end marks the page
      complete: an audio link that is no YouTube link and has no Drive id. */
  predicate ShowsAudioPlayer(audioUrl: Option<string>)
  {
    Truthy(audioUrl) && !IsYouTube(audioUrl.value) && DriveId(audioUrl.value).None?
  }

  /** `isScrollCompletionStep` as written. */
  predicate ScrollCompletionAsWritten(reflective: bool, audioUrl: Option<string>)
  {
    !reflective && !NativeAudioAsWritten(audioUrl)
  }

  /** A page can be completed: by starting the reflection, by the audio
      player ending, or by scrolling to the bottom. */
  predicate HasCompletionRoute(reflective: bool, audioUrl: Option<string>, scroll: bool)
  {
    reflective || ShowsAudioPlayer(audioUrl) || scroll
  }

  /** As written, a page with a short YouTube link as audio counts as a
      native audio page, so scrolling does not complete it, yet no audio
      player is rendered for it: nothing can complete it. */
  lemma StuckAudioPage()
    ensures var audio := Some("youtu.be/x");
      NativeAudioAsWritten(audio) && !ShowsAudioPlayer(audio)
      && !HasCompletionRoute(false, audio, ScrollCompletionAsWritten(false, audio))
  {
    var url := "youtu.be/x";
    assert |url| < |DriveHost| && |url| < |YouTubeHost|;
    OccursContains(url, YouTubeShortHost, 0);
  }

  /** A native audio page: as written, and the player is actually shown. */
  predicate NativeAudio(audioUrl: Option<string>)
  {
    NativeAudioAsWritten(audioUrl) && ShowsAudioPlayer(audioUrl)
  }

  /** Scroll completion applies unless the page is reflective or a native
      audio page. */
  predicate ScrollCompletion(reflective: bool, audioUrl: Option<string>)
  {
    !reflective && !NativeAudio(audioUrl)
  }

  /** Every page has a way to be completed, and a native audio page never
      links to Drive or YouTube. */
  lemma EveryPageCompletes(reflective: bool, audioUrl: Option<string>)
    ensures HasCompletionRoute(reflective, audioUrl, ScrollCompletion(reflective, audioUrl))
    ensures NativeAudio(audioUrl) ==>
      !Contains(audioUrl.value, DriveHost) && !IsYouTube(audioUrl.value) && DriveId(audioUrl.value).None?
  {
  }

  /** The prompt, title and bot of the reflection chat: the sub-module's
      bot and space win over the module's when set. */
  function ReflectionFor(m: Module, sub: Option<SubModule>, prompt: string): (r: Reflection)
    ensures r.initialMessage == prompt
    ensures sub.Some? && Truthy(sub.value.botId) ==> r.botId == sub.value.botId
    ensures !(sub.Some? && Truthy(sub.value.botId)) ==> r.botId == m.botId
    ensures sub.Some? && Truthy(sub.value.spaceId) ==> r.spaceId == sub.value.spaceId
    ensures !(sub.Some? && Truthy(sub.value.spaceId)) ==> r.spaceId == m.spaceId
    ensures sub.Some? ==> r.title == "Reflection: " + sub.value.title
    ensures sub.None? ==> r.title == "Reflection: " + m.title
  {
    Reflection(
      prompt,
      "Reflection: " + (if sub.Some? then sub.value.title else m.title),
      if sub.Some? && Truthy(sub.value.botId) then sub.value.botId else m.botId,
      if sub.Some? && Truthy(sub.value.spaceId) then sub.value.spaceId else m.spaceId)
  }

  /** The viewer of one module, or of one of its sub-modules. `progress` is
      the stored progress the page marks, and `reflection` the last request
      to open the reflection chat. */
  class Viewer {
    const lesson: Module
    const subModule: Option<SubModule>
    var currentStep: int
    var progress: Progress
    var reflection: Option<Reflection>

    /** `totalSteps`: one page for a sub-module, else one per step. */
    function TotalSteps(): (n: nat)
      ensures subModule.Some? ==> n == 1
      ensures subModule.None? ==> n == |lesson.steps|
    {
      if subModule.Some? then 1 else |lesson.steps|
    }

    /** The step on never leaves the pages there are. */
    predicate Valid()
      reads this
    {
      0 <= currentStep && (currentStep < TotalSteps() || currentStep == 0)
    }

    /** `activeReflectionPrompt`. */
    function ActivePrompt(): Option<string>
    {
      if subModule.Some? then subModule.value.reflectionPrompt else Some(lesson.reflectionPrompt)
    }

    function SubModuleId(): Option<string>
    {
      if subModule.Some? then Some(subModule.value.id) else None
    }

    /** The page shown: the sub-module's step, or the current module step. */
    function Page(): (r: Option<ModuleStep>)
      reads this
      requires Valid()
      ensures TotalSteps() > 0 ==> r.Some?
    {
      if subModule.Some? then Some(subModule.value.step)
      else if currentStep < |lesson.steps| then Some(lesson.steps[currentStep])
      else None
    }

    function IsReflectivePage(): bool
      reads this
    {
      IsReflective(IsLastPage(subModule.Some?, currentStep, TotalSteps()), ActivePrompt())
    }

    function AudioUrl(): Option<string>
      reads this
    {
      if subModule.Some? then subModule.value.step.audioUrl
      else if 0 <= currentStep < |lesson.steps| then lesson.steps[currentStep].audioUrl
      else None
    }

    constructor(m: Module, sub: Option<SubModule>, stored: Progress)
      ensures lesson == m && subModule == sub
      ensures currentStep == 0 && progress == stored && reflection == None
      ensures Valid()
    {
      lesson := m;
      subModule := sub;
      currentStep := 0;
      progress := stored;
      reflection := None;
    }

    /** `markComplete`. */
    method MarkComplete()
      modifies this
      ensures progress == RecordProgress(old(progress), lesson.id, currentStep, SubModuleId())
      ensures currentStep == old(currentStep) && reflection == old(reflection)
    {
      progress := RecordProgress(progress, lesson.id, currentStep, SubModuleId());
    }

    /** `startReflection`: always marks the page complete; opens the chat
        only when there is a prompt. */
    method StartReflection()
      modifies this
      ensures progress == RecordProgress(old(progress), lesson.id, currentStep, SubModuleId())
      ensures currentStep == old(currentStep)
      ensures Truthy(ActivePrompt()) ==> reflection == Some(ReflectionFor(lesson, subModule, ActivePrompt().value))
      ensures !Truthy(ActivePrompt()) ==> reflection == old(reflection)
    {
      MarkComplete();
      if !Truthy(ActivePrompt()) {
        return;
      }
      reflection := Some(ReflectionFor(lesson, subModule, ActivePrompt().value));
    }

    /** `handleNext`: the next page, or the reflection on the last one. */
    method Next()
      requires Valid()
      modifies this
      ensures Valid()
      ensures old(currentStep) < TotalSteps() - 1 ==>
        currentStep == old(currentStep) + 1 && progress == old(progress) && reflection == old(reflection)
      ensures old(currentStep) >= TotalSteps() - 1 ==>
        && currentStep == old(currentStep)
        && progress == RecordProgress(old(progress), lesson.id, currentStep, SubModuleId())
        && (Truthy(ActivePrompt()) ==> reflection == Some(ReflectionFor(lesson, subModule, ActivePrompt().value)))
        && (!Truthy(ActivePrompt()) ==> reflection == old(reflection))
    {
      if currentStep < TotalSteps() - 1 {
        currentStep := currentStep + 1;
      } else {
        StartReflection();
      }
    }

    /** `handlePrev`: the previous page, if any. */
    method Prev()
      requires Valid()
      modifies this
      ensures Valid()
      ensures old(currentStep) > 0 ==> currentStep == old(currentStep) - 1
      ensures old(currentStep) == 0 ==> currentStep == 0
      ensures progress == old(progress) && reflection == old(reflection)
    {
      if currentStep > 0 {
        currentStep := currentStep - 1;
      }
    }

    /** `checkScrollCompletion`, given the scroll geometry: a page that
        completes by scrolling is marked once it fits or is scrolled to
        within 50 pixels of its end. */
    method CheckScroll(scrollTop: int, scrollHeight: int, clientHeight: int)
      modifies this
      ensures currentStep == old(currentStep) && reflection == old(reflection)
      ensures ScrollCompletionAsWritten(old(IsReflectivePage()), old(AudioUrl()))
              && (scrollHeight <= clientHeight || scrollTop + clientHeight >= scrollHeight - 50) ==>
        progress == RecordProgress(old(progress), lesson.id, currentStep, SubModuleId())
      ensures !(ScrollCompletionAsWritten(old(IsReflectivePage()), old(AudioUrl()))
              && (scrollHeight <= clientHeight || scrollTop + clientHeight >= scrollHeight - 50)) ==>
        progress == old(progress)
    {
      if !ScrollCompletionAsWritten(IsReflectivePage(), AudioUrl()) {
        return;
      }
      if scrollHeight <= clientHeight || scrollTop + clientHeight >= scrollHeight - 50 {
        MarkComplete();
      }
    }
  }
}
