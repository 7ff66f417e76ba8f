/** The playlist controller of main.js, as values: the state of the N audio
    elements, the N track items and the shared transport surface, and one
    function per handler giving the state it leaves behind. */
module Playlist {
  import opened Optional

  /** Glyph on the shared play/pause button: fa-play or fa-pause. */
  datatype PlayIcon = PlayGlyph | PauseGlyph

  /** Glyph on the mute button: fa-volume-mute, fa-volume-down or fa-volume-up. */
  datatype MuteIcon = VolumeMute | VolumeDown | VolumeUp

  /** Volumes count tenths: the slider runs from 0 to 1 in steps of 0.1. */
  const FullVolume: nat := 10
  /** The slider's initial value, 0.7, which is also the mute button's fallback. */
  const DefaultVolume: nat := 7

  const IdleStatus: string := "No track playing"
  const UnknownTitle: string := "Unknown track"

  datatype Player = Player(
    paused: seq<bool>,              // audio.paused, one per audio element
    position: seq<nat>,             // audio.currentTime, whole seconds
    volume: seq<nat>,               // audio.volume, tenths
    flagged: seq<bool>,             // the `playing` class of each .track element
    titles: seq<Option<string>>,    // text of each track's .track-title, if it has one
    slider: nat,                    // value of #volume-slider, tenths
    muteIcon: MuteIcon,             // glyph of #mute-toggle
    button: PlayIcon,               // glyph of #play-pause
    status: string)                 // text of .controller-status

  /** The number of tracks. */
  function Count(s: Player): nat { |s.titles| }

  /** One audio element per track item, and volumes within the slider's range. */
  predicate WellFormed(s: Player) {
    var n := |s.titles|;
    && |s.paused| == n && |s.position| == n && |s.volume| == n && |s.flagged| == n
    && (forall k :: 0 <= k < n ==> s.volume[k] <= FullVolume)
    && s.slider <= FullVolume
  }

  /** The single-source invariant: at most one audio element is unpaused. */
  predicate AtMostOnePlaying(s: Player) {
    forall j, k :: 0 <= j < |s.paused| && 0 <= k < |s.paused| && !s.paused[j] && !s.paused[k] ==> j == k
  }

  /** The page as it is loaded: nothing plays, every audio element at its start and
      at the media default volume 1.0, the slider at 0.7. */
  function Initial(titles: seq<Option<string>>): (s: Player)
    ensures WellFormed(s) && AtMostOnePlaying(s) && s.titles == titles
    ensures forall k :: 0 <= k < |titles| ==>
      s.paused[k] && s.position[k] == 0 && s.volume[k] == FullVolume && !s.flagged[k]
    ensures s.slider == DefaultVolume && s.muteIcon == VolumeUp
    ensures s.button == PlayGlyph && s.status == IdleStatus
  {
    var n := |titles|;
    Player(seq(n, _ => true), seq(n, _ => 0), seq(n, _ => FullVolume), seq(n, _ => false),
           titles, DefaultVolume, VolumeUp, PlayGlyph, IdleStatus)
  }

  /** The first index holding `b`: Array.prototype.find / findIndex, and
      querySelector in document order. */
  function FirstWhere(s: seq<bool>, b: bool): (r: Option<nat>)
    ensures r.Some? ==> r.value < |s| && s[r.value] == b && forall k :: 0 <= k < r.value ==> s[k] != b
    ensures r.None? ==> forall k :: 0 <= k < |s| ==> s[k] != b
  {
    if s == [] then None
    else if s[0] == b then Some(0)
    else match FirstWhere(s[1..], b)
      case None => None
      case Some(j) => Some(j + 1)
  }

  /** `title || 'Unknown track'`: a missing or empty title reads as `Unknown track`. */
  function TitleText(t: Option<string>): string
  {
    if t.Some? && t.value != "" then t.value else UnknownTitle
  }

  function NowPlaying(t: Option<string>): string { "Now playing: " + TitleText(t) }

  /** updatePlayerUI(audio, track): the pause glyph and the track's title while the
      given audio is unpaused; the play glyph and the idle text otherwise, or when no
      audio is given. Only the transport surface changes. */
  function Render(s: Player, audio: Option<nat>): (r: Player)
    requires audio.Some? ==> audio.value < |s.paused| && audio.value < |s.titles|
  {
    if audio.Some? && !s.paused[audio.value] then
      s.(button := PauseGlyph, status := NowPlaying(s.titles[audio.value]))
    else
      s.(button := PlayGlyph, status := IdleStatus)
  }

  /** playTrack(i): every other audio is paused and rewound, only track i keeps the
      `playing` class, and audio i itself toggles. */
  function PlayTrack(s: Player, i: nat): (r: Player)
    requires WellFormed(s) && i < Count(s)
    ensures WellFormed(r) && r.titles == s.titles
  {
    var n := Count(s);
    var t := s.(
      paused := seq(n, k requires 0 <= k < n => if k == i then !s.paused[i] else true),
      position := seq(n, k requires 0 <= k < n => if k == i then s.position[i] else 0),
      flagged := seq(n, k => k == i));
    if s.paused[i] then Render(t, Some(i)) else Render(t, None)
  }

  /** The play/pause button: pause the first unpaused audio; if none, play the first
      audio whose track carries the `playing` class; if none, play the first audio.
      The button itself renders nothing: the media events that follow do. */
  function PlayPause(s: Player): (r: Player)
    requires WellFormed(s)
    ensures WellFormed(r) && r.titles == s.titles
  {
    match FirstWhere(s.paused, false)
    case Some(j) => s.(paused := s.paused[j := true])
    case None =>
      match FirstWhere(s.flagged, true)
      case Some(k) => s.(paused := s.paused[k := false])
      case None => if Count(s) > 0 then s.(paused := s.paused[0 := false]) else s
  }

  /** `(playingIndex + 1) % length` */
  function NextIndex(j: nat, n: nat): (r: nat)
    requires j < n
    ensures r < n
  {
    (j + 1) % n
  }

  /** `playingIndex > 0 ? playingIndex - 1 : length - 1` */
  function PreviousIndex(j: nat, n: nat): (r: nat)
    requires j < n
    ensures r < n
  {
    if j > 0 then j - 1 else n - 1
  }

  /** Pause audio j, rewind it, and hand audio t to playTrack. */
  function Switch(s: Player, j: nat, t: nat): (r: Player)
    requires WellFormed(s) && j < Count(s) && t < Count(s)
    ensures WellFormed(r) && r.titles == s.titles
  {
    PlayTrack(s.(paused := s.paused[j := true], position := s.position[j := 0]), t)
  }

  /** playNextTrack: only when some audio is unpaused. */
  function Next(s: Player): (r: Player)
    requires WellFormed(s)
    ensures WellFormed(r) && r.titles == s.titles
  {
    match FirstWhere(s.paused, false)
    case None => s
    case Some(j) => Switch(s, j, NextIndex(j, Count(s)))
  }

  /** playPreviousTrack: only when some audio is unpaused. */
  function Previous(s: Player): (r: Player)
    requires WellFormed(s)
    ensures WellFormed(r) && r.titles == s.titles
  {
    match FirstWhere(s.paused, false)
    case None => s
    case Some(j) => Switch(s, j, PreviousIndex(j, Count(s)))
  }

  /** The `play` listener of audio i. */
  function OnPlay(s: Player, i: nat): Player
    requires WellFormed(s) && i < Count(s)
  {
    Render(s, Some(i))
  }

  /** The `pause` listener of any audio. */
  function OnPause(s: Player): Player
  {
    Render(s, None)
  }

  /** The `ended` listener of audio i: drop track i's `playing` class and render idle. */
  function OnEnded(s: Player, i: nat): Player
    requires WellFormed(s) && i < Count(s)
  {
    Render(s.(flagged := s.flagged[i := false]), None)
  }

  /** The mute glyph for a volume: 0, below 0.5, or from 0.5 up. */
  function VolumeIcon(v: nat): (r: MuteIcon)
    ensures r == VolumeMute <==> v == 0
    ensures r == VolumeDown <==> 0 < v < 5
    ensures r == VolumeUp <==> 5 <= v
  {
    if v == 0 then VolumeMute else if v < 5 then VolumeDown else VolumeUp
  }

  /** Every audio element and the slider at volume v, with the given glyph. */
  function AllVolumes(s: Player, v: nat, icon: MuteIcon): Player
  {
    s.(volume := seq(|s.volume|, _ => v), slider := v, muteIcon := icon)
  }

  /** The slider's `input` listener, the slider standing at v. */
  function SetVolume(s: Player, v: nat): (r: Player)
    requires WellFormed(s) && v <= FullVolume
    ensures WellFormed(r) && r.titles == s.titles
  {
    AllVolumes(s, v, VolumeIcon(v))
  }

  /** `audioElements[0]?.volume || 0.7`: a missing first audio and a volume of 0
      both fall back to 0.7. */
  function MuteProbe(s: Player): nat
    requires WellFormed(s)
  {
    if Count(s) > 0 && s.volume[0] != 0 then s.volume[0] else DefaultVolume
  }

  /** The mute button as written: mute when the probe is above 0, else restore 0.7. */
  function ToggleMute(s: Player): (r: Player)
    requires WellFormed(s)
    ensures WellFormed(r) && r.titles == s.titles
  {
    if MuteProbe(s) > 0 then AllVolumes(s, 0, VolumeMute) else AllVolumes(s, DefaultVolume, VolumeUp)
  }

  /** Everything the controller reacts to. */
  datatype Event =
    | TrackActivated(index: nat)    // click on a track's overlay, Enter or Space on a track
    | PlayPauseClicked
    | NextClicked
    | PreviousClicked
    | MediaPlay(index: nat)
    | MediaPause(index: nat)
    | MediaEnded(index: nat)
    | VolumeInput(level: nat)
    | MuteClicked

  /** The listeners exist per track and per audio element, and the slider's range is 0..1. */
  predicate Fits(n: nat, e: Event) {
    match e
    case TrackActivated(i) => i < n
    case MediaPlay(i) => i < n
    case MediaPause(i) => i < n
    case MediaEnded(i) => i < n
    case VolumeInput(v) => v <= FullVolume
    case _ => true
  }

  /** One event handled to completion. A page without audio elements gets no
      controller and no listener at all, so nothing reacts there. */
  function Step(s: Player, e: Event): (r: Player)
    requires WellFormed(s) && Fits(Count(s), e)
    ensures WellFormed(r) && r.titles == s.titles
  {
    if Count(s) == 0 then s else
    match e
    case TrackActivated(i) => PlayTrack(s, i)
    case PlayPauseClicked => PlayPause(s)
    case NextClicked => Next(s)
    case PreviousClicked => Previous(s)
    case MediaPlay(i) => var r := OnPlay(s, i); assert WellFormed(r); r
    case MediaPause(_) => var r := OnPause(s); assert WellFormed(r); r
    case MediaEnded(i) => var r := OnEnded(s, i); assert WellFormed(r); r
    case VolumeInput(v) => SetVolume(s, v)
    case MuteClicked => ToggleMute(s)
  }

  /** A run of events, handled in order, each to completion. */
  function Run(s: Player, es: seq<Event>): (r: Player)
    requires WellFormed(s) && forall k :: 0 <= k < |es| ==> Fits(Count(s), es[k])
    ensures WellFormed(r) && r.titles == s.titles
    decreases |es|
  {
    if es == [] then s else Run(Step(s, es[0]), es[1..])
  }
}
