/** The speech-audio memo: synthesized audio is cached per message index; a
    cached index is served without synthesizing, and a failed synthesis caches
    nothing. */
module TtsCache {
  import opened Wrappers
  import opened Session

  /** One text-to-speech request, for the entry at a log position with its
      text: the audio, or `None` when the request (or the temporary-file round
      trip around it) raises. The position identifies the request, so within
      one display pass each request succeeds or fails on its own. */
  type Synthesizer = (int, string) -> Option<Audio>

  /** What one `generate_tts_audio` call returns, and the cache after it. */
  datatype Lookup = Lookup(audio: Option<Audio>, cache: map<int, Audio>)

  /** `generate_tts_audio(text, index)`. */
  function GetOrSynthesize(cache: map<int, Audio>, index: int, text: string, synth: Synthesizer): (r: Lookup)
    ensures forall i :: i in cache ==> i in r.cache && r.cache[i] == cache[i]
    ensures r.cache.Keys <= cache.Keys + {index}
    ensures r.audio.Some? <==> index in r.cache
    ensures r.audio.Some? ==> r.audio.value == r.cache[index]
    ensures index !in cache ==> r.audio == synth(index, text)
  {
    if index in cache then Lookup(Some(cache[index]), cache)
    else match synth(index, text)
      case Some(audio) => Lookup(Some(audio), cache[index := audio])
      case None => Lookup(None, cache)
  }

  /** A cached index is served without consulting the synthesizer: any two
      synthesizers give the same result, and the cache is unchanged. */
  lemma HitIgnoresSynthesizer(cache: map<int, Audio>, index: int, text: string, synth1: Synthesizer, synth2: Synthesizer)
    requires index in cache
    ensures GetOrSynthesize(cache, index, text, synth1) == GetOrSynthesize(cache, index, text, synth2)
    ensures GetOrSynthesize(cache, index, text, synth1) == Lookup(Some(cache[index]), cache)
  {
  }

  /** After a call that produced audio, every later call at that index is a
      hit: it returns the same audio whatever the text and synthesizer. */
  lemma SecondCallIsHit(cache: map<int, Audio>, index: int, text1: string, synth1: Synthesizer,
                        text2: string, synth2: Synthesizer)
    requires GetOrSynthesize(cache, index, text1, synth1).audio.Some?
    ensures var first := GetOrSynthesize(cache, index, text1, synth1);
      GetOrSynthesize(first.cache, index, text2, synth2) == first
  {
  }

  /** A failed synthesis leaves the cache as it was, so a later call at the
      same index tries again and caches a successful result. */
  lemma FailureIsRetried(cache: map<int, Audio>, index: int, text: string, synth1: Synthesizer, synth2: Synthesizer)
    requires GetOrSynthesize(cache, index, text, synth1).audio.None?
    requires synth2(index, text).Some?
    ensures GetOrSynthesize(cache, index, text, synth1).cache == cache
    ensures var retry := GetOrSynthesize(cache, index, text, synth2);
      retry.audio == synth2(index, text) && retry.cache == cache[index := synth2(index, text).value]
  {
  }

  /** `after` keeps every entry of `before`, and each entry it adds is the
      successful synthesis of the assistant entry of `log` at that position. */
  predicate GrowsByVoicing(before: map<int, Audio>, after: map<int, Audio>, log: seq<Message>, synth: Synthesizer) {
    && (forall i :: i in before ==> i in after && after[i] == before[i])
    && (forall i :: i in after && i !in before ==>
          0 <= i < |log| && log[i].role == Assistant && synth(i, log[i].content) == Some(after[i]))
  }

  /** The cache after the display pass has visited the entries of `log` from
      position `idx` on, fetching audio for each assistant entry. */
  function CacheAfter(log: seq<Message>, idx: nat, cache: map<int, Audio>, synth: Synthesizer): (r: map<int, Audio>)
    requires idx <= |log|
    ensures forall i :: i in cache ==> i in r && r[i] == cache[i]
    ensures forall i :: i in r && i !in cache ==>
      idx <= i < |log| && log[i].role == Assistant && synth(i, log[i].content) == Some(r[i])
    ensures forall i :: idx <= i < |log| && log[i].role == Assistant ==>
      (i in r <==> i in cache || synth(i, log[i].content).Some?)
    decreases |log| - idx
  {
    if idx == |log| then cache
    else if log[idx].role == Assistant then
      CacheAfter(log, idx + 1, GetOrSynthesize(cache, idx, log[idx].content, synth).cache, synth)
    else CacheAfter(log, idx + 1, cache, synth)
  }

  /** The display pass with auto-play on: the log and personality are kept;
      an assistant entry's position ends up cached exactly when it was cached
      before or its request succeeds, and nothing else is added. */
  function Render(s: State, synth: Synthesizer): (r: State)
    ensures r.messages == s.messages && r.currentPersonality == s.currentPersonality
    ensures GrowsByVoicing(s.ttsAudio, r.ttsAudio, s.messages, synth)
    ensures forall i :: 0 <= i < |s.messages| && s.messages[i].role == Assistant ==>
      (i in r.ttsAudio <==> i in s.ttsAudio || synth(i, s.messages[i].content).Some?)
  {
    s.(ttsAudio := CacheAfter(s.messages, 0, s.ttsAudio, synth))
  }

  /** The display pass of a run: assistant entries are voiced only while the
      auto-play toggle is on; with it off the state is untouched. */
  function Display(s: State, autoPlay: bool, synth: Synthesizer): (r: State)
    ensures r.messages == s.messages && r.currentPersonality == s.currentPersonality
    ensures GrowsByVoicing(s.ttsAudio, r.ttsAudio, s.messages, synth)
    ensures !autoPlay ==> r == s
    ensures autoPlay ==> forall i :: 0 <= i < |s.messages| && s.messages[i].role == Assistant ==>
      (i in r.ttsAudio <==> i in s.ttsAudio || synth(i, s.messages[i].content).Some?)
  {
    if autoPlay then Render(s, synth) else s
  }

  /** The message-display pass: every assistant entry's audio is fetched
      through the cache, in log order. Returns the state with the updated
      cache and, per entry, the audio shown under it. */
  method RenderAudio(s: State, synth: Synthesizer) returns (r: State, clips: seq<Option<Audio>>)
    ensures r == Render(s, synth)
    ensures r.messages == s.messages && r.currentPersonality == s.currentPersonality
    ensures forall i :: i in s.ttsAudio ==> i in r.ttsAudio && r.ttsAudio[i] == s.ttsAudio[i]
    ensures forall i :: i in r.ttsAudio && i !in s.ttsAudio ==>
      0 <= i < |s.messages| && s.messages[i].role == Assistant
      && synth(i, s.messages[i].content) == Some(r.ttsAudio[i])
    ensures forall i :: 0 <= i < |s.messages| && s.messages[i].role == Assistant ==>
      (i in r.ttsAudio <==> i in s.ttsAudio || synth(i, s.messages[i].content).Some?)
    ensures |clips| == |s.messages|
    ensures forall i :: 0 <= i < |s.messages| ==>
      clips[i] == if s.messages[i].role == Assistant && i in r.ttsAudio then Some(r.ttsAudio[i]) else None
  {
    var cache := s.ttsAudio;
    clips := [];
    var idx := 0;
    while idx < |s.messages|
      invariant 0 <= idx <= |s.messages|
      invariant CacheAfter(s.messages, idx, cache, synth) == CacheAfter(s.messages, 0, s.ttsAudio, synth)
      invariant |clips| == idx
      invariant forall i :: 0 <= i < idx ==>
        clips[i] == if s.messages[i].role == Assistant && i in cache then Some(cache[i]) else None
    {
      var m := s.messages[idx];
      if m.role == Assistant {
        var looked := GetOrSynthesize(cache, idx, m.content, synth);
        cache := looked.cache;
        clips := clips + [looked.audio];
      } else {
        clips := clips + [None];
      }
      idx := idx + 1;
    }
    r := s.(ttsAudio := cache);
  }
}
