/** The playlist controller over the page's live state: the audio elements and
    track items as arrays updated in place by the handlers, the transport
    surface as fields. Every handler is proved to leave exactly the state that
    the matching function of module Playlist gives. */
module PlayerController {
  import opened Optional
  import opened Playlist
  import Keyboard
  import PlaylistProperties

  /** Array.prototype.find / findIndex over a list of flags: the first index holding `want`. */
  method FindFirst(a: array<bool>, want: bool) returns (r: Option<nat>)
    ensures r == FirstWhere(a[..], want)
  {
    var i := 0;
    while i < a.Length && a[i] != want
      invariant 0 <= i <= a.Length
      invariant forall k :: 0 <= k < i ==> a[k] != want
    {
      i := i + 1;
    }
    var f := FirstWhere(a[..], want);
    if i < a.Length {
      r := Some(i);
      assert f.Some? by { assert a[..][i] == want; }
      assert !(f.value < i) && !(i < f.value);
    } else {
      r := None;
      assert f.None?;
    }
  }

  class Controller {
    /** The text of each track's title, fixed when the page is built. */
    const titles: seq<Option<string>>
    /** audio.paused, audio.currentTime and audio.volume of each audio element. */
    const paused: array<bool>
    const position: array<nat>
    const volume: array<nat>
    /** Whether each track item carries the `playing` class. */
    const flagged: array<bool>
    /** The transport surface. */
    var slider: nat
    var muteIcon: MuteIcon
    var button: PlayIcon
    var status: string

    /** The state as a value of module Playlist. */
    ghost function Model(): Player
      reads this, paused, position, volume, flagged
    {
      Player(paused[..], position[..], volume[..], flagged[..], titles, slider, muteIcon, button, status)
    }

    /** As many audio elements as track items, and distinct arrays for distinct state. */
    ghost predicate Valid()
      reads this, paused, position, volume, flagged
    {
      && WellFormed(Model())
      && paused != flagged && position != volume
    }

    /** The page after loading: every audio paused at 0 with the media default
        volume, nothing flagged, the slider at 0.7, the idle surface. */
    constructor (titles: seq<Option<string>>)
      ensures Valid() && Model() == Initial(titles)
      ensures fresh(paused) && fresh(position) && fresh(volume) && fresh(flagged)
    {
      var n := |titles|;
      this.titles := titles;
      paused := new bool[n](_ => true);
      position := new nat[n](_ => 0);
      volume := new nat[n](_ => FullVolume);
      flagged := new bool[n](_ => false);
      slider := DefaultVolume;
      muteIcon := VolumeUp;
      button := PlayGlyph;
      status := IdleStatus;
    }

    /** updatePlayerUI. */
    method Render(audio: Option<nat>)
      requires Valid() && (audio.Some? ==> audio.value < |titles|)
      modifies this
      ensures Valid() && Model() == Playlist.Render(old(Model()), audio)
    {
      if audio.Some? && !paused[audio.value] {
        button := PauseGlyph;
        status := NowPlaying(titles[audio.value]);
      } else {
        button := PlayGlyph;
        status := IdleStatus;
      }
    }

    /** playTrack's first pass: pause and rewind every audio but audio i. */
    method StopOthers(i: nat)
      requires Valid() && i < |titles|
      modifies paused, position
      ensures Valid()
      ensures paused[..] == seq(|titles|, m requires 0 <= m < |titles| => if m == i then old(paused[i]) else true)
      ensures position[..] == seq(|titles|, m requires 0 <= m < |titles| => if m == i then old(position[i]) else 0)
    {
      var n := paused.Length;
      for k := 0 to n
        modifies paused, position
        invariant forall m :: 0 <= m < k ==> paused[m] == (m == i ==> old(paused[m]))
        invariant forall m :: k <= m < n ==> paused[m] == old(paused[m])
        invariant forall m :: 0 <= m < k ==> position[m] == (if m == i then old(position[m]) else 0)
        invariant forall m :: k <= m < n ==> position[m] == old(position[m])
      {
        if k != i {
          paused[k] := true;
          position[k] := 0;
        }
      }
    }

    /** playTrack's second pass and the line after it: the `playing` class on track i only. */
    method FlagOnly(i: nat)
      requires Valid() && i < |titles|
      modifies flagged
      ensures Valid()
      ensures flagged[..] == seq(|titles|, m => m == i)
    {
      var n := flagged.Length;
      for k := 0 to n
        modifies flagged
        invariant forall m :: 0 <= m < k ==> !flagged[m]
      {
        flagged[k] := false;
      }
      flagged[i] := true;
    }

    /** playTrack(audio i, track i). */
    method PlayTrack(i: nat)
      requires Valid() && i < |titles|
      modifies this, paused, position, flagged
      ensures Valid() && Model() == Playlist.PlayTrack(old(Model()), i)
    {
      StopOthers(i);
      FlagOnly(i);
      if paused[i] {
        paused[i] := false;
        Render(Some(i));
      } else {
        paused[i] := true;
        Render(None);
      }
    }

    /** The play/pause button's click listener. */
    method PlayPauseClick()
      requires Valid()
      modifies paused
      ensures Valid() && Model() == PlayPause(old(Model()))
    {
      var playing := FindFirst(paused, false);
      if playing.Some? {
        paused[playing.value] := true;
      } else {
        var last := FindFirst(flagged, true);
        if last.Some? {
          paused[last.value] := false;
        } else if paused.Length > 0 {
          paused[0] := false;
        }
      }
    }

    /** Pause audio j, rewind it, and hand audio t to playTrack. */
    method Switch(j: nat, t: nat)
      requires Valid() && j < |titles| && t < |titles|
      modifies this, paused, position, flagged
      ensures Valid() && Model() == Playlist.Switch(old(Model()), j, t)
    {
      paused[j] := true;
      position[j] := 0;
      assert Model() == old(Model()).(paused := old(Model()).paused[j := true],
                                      position := old(Model()).position[j := 0]);
      PlayTrack(t);
    }

    /** playNextTrack, the next button's click listener. */
    method Next()
      requires Valid()
      modifies this, paused, position, flagged
      ensures Valid() && Model() == Playlist.Next(old(Model()))
    {
      var playing := FindFirst(paused, false);
      if playing.Some? {
        Switch(playing.value, NextIndex(playing.value, paused.Length));
      }
    }

    /** playPreviousTrack, the previous button's click listener. */
    method Previous()
      requires Valid()
      modifies this, paused, position, flagged
      ensures Valid() && Model() == Playlist.Previous(old(Model()))
    {
      var playing := FindFirst(paused, false);
      if playing.Some? {
        Switch(playing.value, PreviousIndex(playing.value, paused.Length));
      }
    }

    /** The `play` listener of audio i. */
    method OnPlay(i: nat)
      requires Valid() && i < |titles|
      modifies this
      ensures Valid() && Model() == Playlist.OnPlay(old(Model()), i)
    {
      Render(Some(i));
    }

    /** The `pause` listener of audio i. */
    method OnPause(i: nat)
      requires Valid() && i < |titles|
      modifies this
      ensures Valid() && Model() == Playlist.OnPause(old(Model()))
    {
      Render(None);
    }

    /** The `ended` listener of audio i. */
    method OnEnded(i: nat)
      requires Valid() && i < |titles|
      modifies this, flagged
      ensures Valid() && Model() == Playlist.OnEnded(old(Model()), i)
    {
      flagged[i] := false;
      Render(None);
    }

    /** The slider's `input` listener, the slider standing at v. */
    method VolumeInput(v: nat)
      requires Valid() && v <= FullVolume
      modifies this, volume
      ensures Valid() && Model() == SetVolume(old(Model()), v)
    {
      for k := 0 to volume.Length
        modifies volume
        invariant forall m :: 0 <= m < k ==> volume[m] == v
      {
        volume[k] := v;
      }
      slider := v;
      muteIcon := VolumeIcon(v);
      assert volume[..] == seq(|titles|, _ => v);
    }

    /** The mute button's click listener. The fallback makes the probed volume
        positive, so the restore-to-0.7 branch (main.js:250-258) cannot run. */
    method MuteClick()
      requires Valid()
      modifies this, volume
      ensures Valid() && Model() == ToggleMute(old(Model()))
    {
      var current := if volume.Length > 0 && volume[0] != 0 then volume[0] else DefaultVolume;
      if current > 0 {
        for k := 0 to volume.Length
          modifies volume
          invariant forall m :: 0 <= m < k ==> volume[m] == 0
        {
          volume[k] := 0;
        }
        slider := 0;
        muteIcon := VolumeMute;
        assert volume[..] == seq(|titles|, _ => 0);
      } else {
        assert false;
      }
    }

    /** A keydown: the focused track's listener first, then the document's. */
    method KeyDown(key: string, target: Keyboard.Target)
      requires Valid() && (target.TrackItem? ==> target.index < |titles|)
      modifies this, paused, position, flagged
      ensures Valid() && Model() == Run(old(Model()), Keyboard.KeyEvents(key, target))
    {
      ghost var s0 := Model();
      ghost var ts := Keyboard.TrackKeyEvents(key, target);
      ghost var ds := Keyboard.DocumentKeyEvents(key, target.tag);
      Keyboard.KeyEventsFit(|titles|, key, target);
      assert Keyboard.KeyEvents(key, target) == ts + ds;
      if target.TrackItem? && Keyboard.ActivatesTrack(key) {
        PlayTrack(target.index);
        PlaylistProperties.RunSingle(s0, TrackActivated(target.index));
      }
      ghost var s1 := Model();
      assert s1 == Run(s0, ts);
      match Keyboard.DocumentKeyButton(key, target.tag) {
      case Some(PlayPauseButton) =>
        PlayPauseClick();
        PlaylistProperties.RunSingle(s1, PlayPauseClicked);
      case Some(NextButton) =>
        Next();
        PlaylistProperties.RunSingle(s1, NextClicked);
      case Some(PreviousButton) =>
        Previous();
        PlaylistProperties.RunSingle(s1, PreviousClicked);
      case None =>
      }
      assert Model() == Run(s1, ds);
      PlaylistProperties.RunAppend(s0, ts, ds);
    }
  }

  /** Three tracks driven through the class: play track 1, press next, press
      previous. What the contracts let a caller conclude. */
  method ThreeTrackSession(a: Option<string>, b: Option<string>, c: Option<string>)
  {
    var player := new Controller([a, b, c]);
    player.PlayTrack(1);
    player.Next();
    player.Previous();
    PlaylistProperties.ThreeTrackScenario(a, b, c);
    assert !player.paused[1] && player.paused[0] && player.paused[2];
    assert player.position[1] == 0 && player.status == NowPlaying(b);
  }
}
