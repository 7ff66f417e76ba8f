/** What the playlist controller's handlers promise, proved about the
    transition functions of module Playlist. */
module PlaylistProperties {
  import opened Optional
  import opened Playlist

  /** Only track k carries the `playing` class. */
  predicate OnlyFlagged(s: Player, k: nat) {
    forall m :: 0 <= m < |s.flagged| ==> (s.flagged[m] <==> m == k)
  }

  /** Every audio other than k is paused and rewound. */
  predicate OthersStopped(s: Player, k: nat) {
    forall m :: 0 <= m < |s.paused| && m < |s.position| && m != k ==> s.paused[m] && s.position[m] == 0
  }

  /** No audio is unpaused. */
  predicate AllPaused(s: Player) {
    forall m :: 0 <= m < |s.paused| ==> s.paused[m]
  }

  /** The first index holding b is the index k when k holds b and nothing before it does. */
  lemma FirstWhereIs(s: seq<bool>, b: bool, k: nat)
    requires k < |s| && s[k] == b && forall m :: 0 <= m < k ==> s[m] != b
    ensures FirstWhere(s, b) == Some(k)
  {
  }

  // ---------------------------------------------------------------- playTrack

  /** playTrack(i) stops and rewinds every other audio, flags exactly track i,
      toggles audio i without moving it, and renders accordingly. */
  lemma PlayTrackEffect(s: Player, i: nat)
    requires WellFormed(s) && i < Count(s)
    ensures var r := PlayTrack(s, i);
      && OthersStopped(r, i)
      && OnlyFlagged(r, i)
      && r.paused[i] == !s.paused[i]
      && r.position[i] == s.position[i]
      && AtMostOnePlaying(r)
      && r.volume == s.volume && r.slider == s.slider && r.muteIcon == s.muteIcon
      && (s.paused[i] ==> r.button == PauseGlyph && r.status == NowPlaying(s.titles[i]))
      && (!s.paused[i] ==> r.button == PlayGlyph && r.status == IdleStatus)
  {
  }

  /** Two playTrack(i) in a row give audio i back its play state, at the same
      position, with every other audio stopped and rewound; starting from a paused
      track this is the paused-on-i state. */
  lemma PlayTrackTwice(s: Player, i: nat)
    requires WellFormed(s) && i < Count(s)
    ensures var r := PlayTrack(PlayTrack(s, i), i);
      && r.paused[i] == s.paused[i]
      && r.position[i] == s.position[i]
      && OthersStopped(r, i)
      && OnlyFlagged(r, i)
      && (s.paused[i] ==> r.button == PlayGlyph && r.status == IdleStatus)
  {
    PlayTrackEffect(s, i);
    PlayTrackEffect(PlayTrack(s, i), i);
  }

  // ------------------------------------------------------- play/pause button

  /** With some audio unpaused, the button pauses the first one and touches
      nothing else: no flag, no position, no glyph, no text. */
  lemma PlayPausePausesFirst(s: Player, j: nat)
    requires WellFormed(s) && FirstWhere(s.paused, false) == Some(j)
    ensures PlayPause(s) == s.(paused := s.paused[j := true])
    ensures PlayPause(s).paused[j] && !s.paused[j]
    ensures forall m :: 0 <= m < j ==> s.paused[m]
  {
  }

  /** With nothing unpaused, the button plays the first flagged track where it
      stands: it resumes, it does not rewind. */
  lemma PlayPauseResumesFlagged(s: Player, k: nat)
    requires WellFormed(s) && AllPaused(s) && FirstWhere(s.flagged, true) == Some(k)
    ensures PlayPause(s) == s.(paused := s.paused[k := false])
    ensures s.flagged[k] && forall m :: 0 <= m < k ==> !s.flagged[m]
  {
    assert FirstWhere(s.paused, false) == None;
  }

  /** With nothing unpaused and nothing flagged, the button plays the first track. */
  lemma PlayPauseStartsFirst(s: Player)
    requires WellFormed(s) && AllPaused(s) && (forall m :: 0 <= m < Count(s) ==> !s.flagged[m])
    ensures Count(s) > 0 ==> PlayPause(s) == s.(paused := s.paused[0 := false])
    ensures Count(s) == 0 ==> PlayPause(s) == s
  {
    assert FirstWhere(s.paused, false) == None;
    assert FirstWhere(s.flagged, true) == None;
  }

  /** A track paused through playTrack is resumed by the button, at the position
      where it was paused. */
  lemma PlayPauseResumesAfterPlayTrack(s: Player, i: nat)
    requires WellFormed(s) && i < Count(s) && !s.paused[i]
    ensures var r := PlayPause(PlayTrack(s, i));
      !r.paused[i] && r.position[i] == s.position[i] && OthersStopped(r, i)
  {
    var t := PlayTrack(s, i);
    PlayTrackEffect(s, i);
    assert AllPaused(t);
    FirstWhereIs(t.flagged, true, i);
    PlayPauseResumesFlagged(t, i);
  }

  /** The button keeps at most one audio unpaused. */
  lemma PlayPauseKeepsAtMostOne(s: Player)
    requires WellFormed(s) && AtMostOnePlaying(s)
    ensures AtMostOnePlaying(PlayPause(s))
  {
    if FirstWhere(s.paused, false).None? {
      assert AllPaused(s);
    }
  }

  // ---------------------------------------------------------- next/previous

  /** The wrap-around arithmetic of both buttons, and each one undoing the other. */
  lemma IndexArithmetic(j: nat, n: nat)
    requires j < n
    ensures PreviousIndex(j, n) == (j - 1 + n) % n
    ensures NextIndex(j, n) == if j == n - 1 then 0 else j + 1
    ensures PreviousIndex(NextIndex(j, n), n) == j
    ensures NextIndex(PreviousIndex(j, n), n) == j
  {
    if j + 1 < n {
      ModBelow(j + 1, n);
      assert NextIndex(j, n) == j + 1;
    } else {
      ModSelf(n);
      assert NextIndex(j, n) == 0;
    }
    if j > 0 {
      ModShift(j - 1, n);
      ModBelow(j, n);
      assert PreviousIndex(j, n) == j - 1;
      assert NextIndex(j - 1, n) == j;
    } else {
      ModBelow(n - 1, n);
      ModSelf(n);
      assert PreviousIndex(j, n) == n - 1;
      assert NextIndex(n - 1, n) == 0;
    }
  }

  lemma ModBelow(a: int, n: int)
    requires 0 <= a < n
    ensures a % n == a
  {
  }

  lemma ModSelf(n: int)
    requires 0 < n
    ensures n % n == 0
  {
  }

  lemma ModShift(a: int, n: int)
    requires 0 <= a < n
    ensures (a + n) % n == a
  {
  }

  /** Next and previous do nothing unless some audio is unpaused: a track that is
      selected but paused is not started. */
  lemma SkipNeedsPlayback(s: Player)
    requires WellFormed(s) && AllPaused(s)
    ensures Next(s) == s && Previous(s) == s
  {
    assert FirstWhere(s.paused, false) == None;
  }

  /** Switching from the one unpaused audio j to audio t: j and every other audio
      ends paused at 0, t plays from where it stood (from 0 if t is j), and only t
      is flagged and shown. */
  lemma SwitchEffect(s: Player, j: nat, t: nat)
    requires WellFormed(s) && AtMostOnePlaying(s) && j < Count(s) && t < Count(s)
    requires FirstWhere(s.paused, false) == Some(j)
    ensures var r := Switch(s, j, t);
      && !r.paused[t]
      && r.position[t] == (if t == j then 0 else s.position[t])
      && OthersStopped(r, t)
      && OnlyFlagged(r, t)
      && r.button == PauseGlyph && r.status == NowPlaying(s.titles[t])
      && FirstWhere(r.paused, false) == Some(t)
  {
    var u := s.(paused := s.paused[j := true], position := s.position[j := 0]);
    assert u.paused[t];
    PlayTrackEffect(u, t);
    var r := Switch(s, j, t);
    var f := FirstWhere(r.paused, false);
    assert f.Some? by { assert !r.paused[t]; }
  }

  /** playNextTrack moves playback from the unpaused audio j to (j + 1) mod n. */
  lemma NextEffect(s: Player, j: nat)
    requires WellFormed(s) && AtMostOnePlaying(s) && FirstWhere(s.paused, false) == Some(j)
    ensures var t := (j + 1) % Count(s);
      && Next(s) == Switch(s, j, t)
      && !Next(s).paused[t] && OthersStopped(Next(s), t) && OnlyFlagged(Next(s), t)
      && Next(s).position[t] == (if t == j then 0 else s.position[t])
  {
    SwitchEffect(s, j, NextIndex(j, Count(s)));
  }

  /** playPreviousTrack moves playback from the unpaused audio j to (j - 1 + n) mod n. */
  lemma PreviousEffect(s: Player, j: nat)
    requires WellFormed(s) && AtMostOnePlaying(s) && FirstWhere(s.paused, false) == Some(j)
    ensures var t := (j - 1 + Count(s)) % Count(s);
      && Previous(s) == Switch(s, j, t)
      && !Previous(s).paused[t] && OthersStopped(Previous(s), t) && OnlyFlagged(Previous(s), t)
      && Previous(s).position[t] == (if t == j then 0 else s.position[t])
  {
    IndexArithmetic(j, Count(s));
    SwitchEffect(s, j, PreviousIndex(j, Count(s)));
  }

  /** With a single track, next restarts it from 0. */
  lemma NextSingleTrackRestarts(s: Player)
    requires WellFormed(s) && Count(s) == 1 && !s.paused[0]
    ensures !Next(s).paused[0] && Next(s).position[0] == 0 && OnlyFlagged(Next(s), 0)
  {
    assert FirstWhere(s.paused, false) == Some(0);
    NextEffect(s, 0);
  }

  /** Previous after next comes back to the same track, restarted from 0 rather
      than resumed. */
  lemma PreviousUndoesNext(s: Player, j: nat)
    requires WellFormed(s) && AtMostOnePlaying(s) && FirstWhere(s.paused, false) == Some(j)
    ensures var r := Previous(Next(s));
      !r.paused[j] && r.position[j] == 0 && OthersStopped(r, j) && OnlyFlagged(r, j)
  {
    var n := Count(s);
    var t := NextIndex(j, n);
    IndexArithmetic(j, n);
    SwitchEffect(s, j, t);
    var u := Next(s);
    assert u == Switch(s, j, t);
    PlayTrackEffect(s.(paused := s.paused[j := true], position := s.position[j := 0]), t);
    assert AtMostOnePlaying(u);
    SwitchEffect(u, t, PreviousIndex(t, n));
    assert u.position[j] == 0;
  }

  // ---------------------------------------------------------- media events

  /** A `play` event shows the pause glyph and the track's title only if that
      audio is still unpaused; a late event for a displaced audio renders idle.
      Nothing but the transport surface changes. */
  lemma OnPlayEffect(s: Player, i: nat)
    requires WellFormed(s) && i < Count(s)
    ensures var r := OnPlay(s, i);
      && r == s.(button := r.button, status := r.status)
      && (!s.paused[i] ==> r.button == PauseGlyph && r.status == NowPlaying(s.titles[i]))
      && (s.paused[i] ==> r.button == PlayGlyph && r.status == IdleStatus)
  {
  }

  /** The words shown for a track: its title, or `Unknown track` without one. */
  lemma NowPlayingText(t: Option<string>)
    ensures t.Some? && t.value != "" ==> NowPlaying(t) == "Now playing: " + t.value
    ensures t.None? || t.value == "" ==> NowPlaying(t) == "Now playing: Unknown track"
  {
  }

  /** A `pause` event of any audio renders the idle surface and nothing else. */
  lemma OnPauseEffect(s: Player)
    ensures OnPause(s) == s.(button := PlayGlyph, status := IdleStatus)
  {
  }

  /** An `ended` event drops only track i's flag and renders idle; it neither starts
      another audio nor rewinds any. */
  lemma OnEndedEffect(s: Player, i: nat)
    requires WellFormed(s) && i < Count(s)
    ensures OnEnded(s, i) == s.(flagged := s.flagged[i := false], button := PlayGlyph, status := IdleStatus)
  {
  }

  // ------------------------------------------------------------- volume

  /** The slider sets every audio and itself to v, picks the glyph by the thresholds
      0 and 0.5, and changes nothing else. */
  lemma SetVolumeEffect(s: Player, v: nat)
    requires WellFormed(s) && v <= FullVolume
    ensures SetVolume(s, v) == s.(volume := seq(Count(s), _ => v), slider := v, muteIcon := VolumeIcon(v))
    ensures var r := SetVolume(s, v);
      && (forall k :: 0 <= k < Count(s) ==> r.volume[k] == v)
      && (r.muteIcon == VolumeMute <==> v == 0)
      && (r.muteIcon == VolumeDown <==> 0 < v < 5)
      && (r.muteIcon == VolumeUp <==> 5 <= v)
      && r.paused == s.paused && r.position == s.position && r.flagged == s.flagged
  {
  }

  /** The probe `audioElements[0]?.volume || 0.7` is never 0 ... */
  lemma MuteProbePositive(s: Player)
    requires WellFormed(s)
    ensures MuteProbe(s) > 0
  {
  }

  /** ... so every click mutes: every audio and the slider go to 0 with the mute
      glyph, and the restore-to-0.7 branch is never taken. */
  lemma MuteAlwaysMutes(s: Player)
    requires WellFormed(s)
    ensures ToggleMute(s) == AllVolumes(s, 0, VolumeMute)
    ensures forall k :: 0 <= k < Count(s) ==> ToggleMute(s).volume[k] == 0
    ensures ToggleMute(s).slider == 0
  {
    MuteProbePositive(s);
  }

  /** Clicking mute on a muted player leaves it muted: the button never unmutes. */
  lemma MuteNeverUnmutes(s: Player)
    requires WellFormed(s)
    ensures ToggleMute(ToggleMute(s)) == ToggleMute(s)
  {
    MuteAlwaysMutes(s);
    MuteAlwaysMutes(ToggleMute(s));
  }

  // ------------------------------------------------------------- invariant

  /** Every handler keeps at most one audio unpaused. */
  lemma StepKeepsAtMostOne(s: Player, e: Event)
    requires WellFormed(s) && Fits(Count(s), e) && AtMostOnePlaying(s)
    ensures AtMostOnePlaying(Step(s, e))
  {
    match e
    case TrackActivated(i) => PlayTrackEffect(s, i);
    case PlayPauseClicked => PlayPauseKeepsAtMostOne(s);
    case NextClicked =>
      var f := FirstWhere(s.paused, false);
      if f.Some? {
        var j := f.value;
        PlayTrackEffect(s.(paused := s.paused[j := true], position := s.position[j := 0]), NextIndex(j, Count(s)));
      }
    case PreviousClicked =>
      var f := FirstWhere(s.paused, false);
      if f.Some? {
        var j := f.value;
        PlayTrackEffect(s.(paused := s.paused[j := true], position := s.position[j := 0]), PreviousIndex(j, Count(s)));
      }
    case _ =>
  }

  lemma {:induction false} RunKeepsAtMostOne(s: Player, es: seq<Event>)
    requires WellFormed(s) && (forall k :: 0 <= k < |es| ==> Fits(Count(s), es[k])) && AtMostOnePlaying(s)
    ensures AtMostOnePlaying(Run(s, es))
    decreases |es|
  {
    if es != [] {
      StepKeepsAtMostOne(s, es[0]);
      RunKeepsAtMostOne(Step(s, es[0]), es[1..]);
    }
  }

  /** Handling one event is a step. */
  lemma RunSingle(s: Player, e: Event)
    requires WellFormed(s) && Fits(Count(s), e)
    ensures Run(s, [e]) == Step(s, e)
  {
    assert [e][1..] == [];
  }

  /** Handling two runs of events one after the other is handling their concatenation. */
  lemma {:induction false} RunAppend(s: Player, a: seq<Event>, b: seq<Event>)
    requires WellFormed(s)
    requires forall k :: 0 <= k < |a| ==> Fits(Count(s), a[k])
    requires forall k :: 0 <= k < |b| ==> Fits(Count(s), b[k])
    ensures Run(s, a + b) == Run(Run(s, a), b)
    decreases |a|
  {
    if a == [] {
      assert a + b == b;
    } else {
      assert (a + b)[0] == a[0];
      assert (a + b)[1..] == a[1..] + b;
      RunAppend(Step(s, a[0]), a[1..], b);
    }
  }

  /** Without audio elements no listener is attached: no run of events changes anything. */
  lemma {:induction false} NoAudioIgnoresEvents(s: Player, es: seq<Event>)
    requires WellFormed(s) && Count(s) == 0 && forall k :: 0 <= k < |es| ==> Fits(Count(s), es[k])
    ensures Run(s, es) == s
    decreases |es|
  {
    if es != [] {
      NoAudioIgnoresEvents(Step(s, es[0]), es[1..]);
    }
  }

  /** From page load, whatever the controller is asked to do, at most one audio plays. */
  lemma ReachableAtMostOne(titles: seq<Option<string>>, es: seq<Event>)
    requires forall k :: 0 <= k < |es| ==> Fits(|titles|, es[k])
    ensures AtMostOnePlaying(Run(Initial(titles), es))
  {
    RunKeepsAtMostOne(Initial(titles), es);
  }

  /** Three tracks: play track 1, press next, press previous. Track 1 is first
      shown as playing; next stops it at 0 and plays track 2; previous stops
      track 2 at 0 and plays track 1 again from 0. */
  lemma ThreeTrackScenario(a: Option<string>, b: Option<string>, c: Option<string>)
    ensures var s0 := Initial([a, b, c]);
      var s1 := PlayTrack(s0, 1);
      var s2 := Next(s1);
      var s3 := Previous(s2);
      && !s1.paused[1] && s1.status == NowPlaying(b)
      && !s2.paused[2] && s2.paused[1] && s2.position[1] == 0 && s2.status == NowPlaying(c)
      && !s3.paused[1] && s3.paused[2] && s3.position[1] == 0 && s3.position[2] == 0
      && s3.status == NowPlaying(b)
  {
    var s0 := Initial([a, b, c]);
    PlayTrackEffect(s0, 1);
    var s1 := PlayTrack(s0, 1);
    assert FirstWhere(s1.paused, false) == Some(1);
    SwitchEffect(s1, 1, 2);
    var s2 := Next(s1);
    assert s2 == Switch(s1, 1, 2);
    PlayTrackEffect(s1.(paused := s1.paused[1 := true], position := s1.position[1 := 0]), 2);
    SwitchEffect(s2, 2, 1);
  }
}
