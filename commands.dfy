/** The commands the applet sends to the receiver: a GET of the base URL
    followed by a fixed path, the command name, a literal escaped slash and
    the argument (_togglePowerButton, _changeVolume and _sendCommand in
    src/extension.js). Nothing in the URL is escaped or added. */
module Commands {
  import opened Wrappers
  import opened Volume
  import opened NumberText

  const CommandPath: string := "MainZone/index.put.asp?cmd0="
  /** The escaped "/" between a command and its argument. */
  const Separator: string := "%2F"
  const PowerCommand: string := "PutSystem_OnStandby"
  const VolumeCommand: string := "PutMasterVolumeSet"

  datatype Command = Command(name: string, arg: string)

  /** _sendCommand: the URL of the request for a command and its argument. */
  function CommandUrl(baseUrl: string, command: string, arg: string): (url: string)
    ensures |url| == |baseUrl| + |CommandPath| + |command| + |Separator| + |arg|
    ensures url[..|baseUrl|] == baseUrl && url[|url| - |arg|..] == arg
  {
    var url := baseUrl + CommandPath + command + Separator + arg;
    assert url == baseUrl + (CommandPath + command + Separator + arg);
    assert url == (baseUrl + CommandPath + command + Separator) + arg;
    url
  }

  /** The argument of the power command: ON exactly when the switch is on. */
  function PowerArgument(on: bool): (arg: string)
    ensures arg == "ON" <==> on
    ensures arg == "ON" || arg == "STANDBY"
  {
    if on then "ON" else "STANDBY"
  }

  /** _togglePowerButton: the request sent when the power switch is set.
      It names PutSystem_OnStandby, and its argument is ON exactly when the
      switch was turned on, STANDBY otherwise. */
  function PowerCommandUrl(baseUrl: string, on: bool): (url: string)
    ensures DecodeCommandUrl(baseUrl, url).Some?
    ensures var c := DecodeCommandUrl(baseUrl, url).value;
            c.name == PowerCommand && (c.arg == "ON" <==> on) && (c.arg == "ON" || c.arg == "STANDBY")
  {
    assert forall k :: 0 <= k < |PowerCommand| ==> PowerCommand[k] != '%';
    CommandUrlRoundTrip(baseUrl, PowerCommand, PowerArgument(on));
    CommandUrl(baseUrl, PowerCommand, PowerArgument(on))
  }

  /** _changeVolume: the request sent for a volume, written as the label
      shows it. It names PutMasterVolumeSet, and its argument is decimal
      text that denotes exactly the volume sent. */
  function VolumeCommandUrl(baseUrl: string, volume: real): (url: string)
    requires IsHalfStep(volume)
    ensures DecodeCommandUrl(baseUrl, url).Some?
    ensures var c := DecodeCommandUrl(baseUrl, url).value;
            c.name == VolumeCommand && IsVolumeText(c.arg) && ParseDecimal(c.arg) == Some(volume)
  {
    assert forall k :: 0 <= k < |VolumeCommand| ==> VolumeCommand[k] != '%';
    CommandUrlRoundTrip(baseUrl, VolumeCommand, FormatHalfStep(volume));
    FormatParseRoundTrip(volume);
    CommandUrl(baseUrl, VolumeCommand, FormatHalfStep(volume))
  }

  predicate SeparatorAt(s: string, k: nat) {
    k + |Separator| <= |s| && s[k..k + |Separator|] == Separator
  }

  /** The first separator at or after position `from`. */
  function FindSeparator(s: string, from: nat): (r: Option<nat>)
    requires from <= |s|
    ensures r.Some? ==> from <= r.value && SeparatorAt(s, r.value)
    ensures r.Some? ==> forall k :: from <= k < r.value ==> !SeparatorAt(s, k)
    ensures r.None? ==> forall k :: from <= k ==> !SeparatorAt(s, k)
    decreases |s| - from
  {
    if from + |Separator| > |s| then None
    else if SeparatorAt(s, from) then Some(from)
    else FindSeparator(s, from + 1)
  }

  /** Reads a command URL back into its command and argument, splitting at
      the first separator after the fixed prefix; the partner of CommandUrl. */
  function DecodeCommandUrl(baseUrl: string, url: string): (r: Option<Command>)
    ensures r.Some? ==> CommandUrl(baseUrl, r.value.name, r.value.arg) == url
    ensures r.Some? ==> forall k :: !SeparatorAt(r.value.name, k)
  {
    var head := baseUrl + CommandPath;
    if |url| < |head| || url[..|head|] != head then None
    else
      var rest := url[|head|..];
      match FindSeparator(rest, 0)
      case None => None
      case Some(k) =>
        var name := rest[..k];
        forall j: nat | SeparatorAt(name, j) ensures SeparatorAt(rest, j) {
          assert name[j..j + |Separator|] == rest[j..j + |Separator|];
        }
        SplitAtSeparator(baseUrl, url, head, rest, k);
        Some(Command(rest[..k], rest[k + |Separator|..]))
  }

  /** The URL is the fixed prefix, the name, the separator and the
      argument, for any split of the text after the prefix at a separator. */
  lemma SplitAtSeparator(baseUrl: string, url: string, head: string, rest: string, k: nat)
    requires head == baseUrl + CommandPath
    requires |head| <= |url| && url[..|head|] == head && rest == url[|head|..]
    requires SeparatorAt(rest, k)
    ensures CommandUrl(baseUrl, rest[..k], rest[k + |Separator|..]) == url
  {
    var name, arg := rest[..k], rest[k + |Separator|..];
    assert rest == name + Separator + arg;
    assert url == head + rest;
    assert url == head + name + Separator + arg;
  }

  /** A command whose name holds no '%' is recovered exactly from its URL:
      the argument is sent verbatim, nothing escaped or added. */
  lemma CommandUrlRoundTrip(baseUrl: string, command: string, arg: string)
    requires '%' !in command
    ensures DecodeCommandUrl(baseUrl, CommandUrl(baseUrl, command, arg)) == Some(Command(command, arg))
  {
    var head := baseUrl + CommandPath;
    var url := CommandUrl(baseUrl, command, arg);
    var rest := command + Separator + arg;
    assert url == head + rest;
    assert url[..|head|] == head && url[|head|..] == rest;
    assert SeparatorAt(rest, |command|);
    forall k | 0 <= k < |command| ensures !SeparatorAt(rest, k) {
      assert rest[k] == command[k];
    }
    var found := FindSeparator(rest, 0);
    assert found == Some(|command|);
    assert rest[..|command|] == command && rest[|command| + |Separator|..] == arg;
  }

  /** Different commands give different URLs. */
  lemma CommandUrlInjective(baseUrl: string, c1: string, a1: string, c2: string, a2: string)
    requires '%' !in c1 && '%' !in c2
    requires CommandUrl(baseUrl, c1, a1) == CommandUrl(baseUrl, c2, a2)
    ensures c1 == c2 && a1 == a2
  {
    CommandUrlRoundTrip(baseUrl, c1, a1);
    CommandUrlRoundTrip(baseUrl, c2, a2);
  }
}
