/** The panel indicator (class DenonAVRindicator in src/extension.js): the
    state its menu shows, the requests its handlers produce, and how a
    status page updates what is shown. Sending a request is modelled by
    returning its URL; the response to the status request is given as a
    status code and the page text. */
module Indicator {
  import opened Wrappers
  import opened Volume
  import opened NumberText
  import opened Commands
  import opened StatusScrape

  /** The page requested when the menu opens: a request under the base
      URL that is never read as a command. */
  function StatusUrl(baseUrl: string): (url: string)
    ensures |url| > |baseUrl| && url[..|baseUrl|] == baseUrl
    ensures DecodeCommandUrl(baseUrl, url) == None
  {
    var url, head := baseUrl + "goform/formMainZone_MainZoneXml.xml", baseUrl + CommandPath;
    assert url[|baseUrl|] == 'g' && head[|baseUrl|] == 'M';
    assert |url| >= |head| ==> url[..|head|][|baseUrl|] != head[|baseUrl|];
    url
  }

  /** The label first shown under the slider: the initial -33 dB reads
      back as "-33". */
  lemma InitialVolumeLabel()
    ensures FormatHalfStep(SliderVolume(FractionOf(-33.0))) == "-33"
  {
    HalfStepsOfWhole(-33);
    SetThenGet(-33.0);
    FloorOfWhole(2.0 * -33.0, -66);
    assert NatToString(33) == "33";
  }

  /** The response _parseResponse acts on: status 200 and all three fields
      found on the page. */
  predicate Found(statusCode: int, data: string) {
    && statusCode == 200
    && Extract(FriendlyName, data).Some?
    && Extract(ZonePower, data).Some?
    && Extract(MasterVolume, data).Some?
  }

  class DenonAvrIndicator {
    /** The receiver's base URL, read from the settings. */
    const baseUrl: string
    const volumeSlider: VolumeSlider
    /** The text of the power switch. */
    var powerLabel: string
    /** The state of the power switch. */
    var powerOn: bool
    /** The text of the label under the slider. */
    var volumeLabel: string

    /** _init: the switch reads "AVR" and is off, the slider is at -33 dB
        with the medium icon, and the label shows the slider's volume. */
    constructor (baseUrl: string)
      ensures this.baseUrl == baseUrl && fresh(volumeSlider)
      ensures powerLabel == "AVR" && !powerOn
      ensures volumeSlider.value == FractionOf(-33.0) && volumeSlider.icon == Medium
      ensures volumeLabel == FormatHalfStep(SliderVolume(volumeSlider.value)) == "-33"
    {
      this.baseUrl := baseUrl;
      powerLabel := "AVR";
      powerOn := false;
      var slider := new VolumeSlider(-33.0);
      var volume := slider.GetVolume();
      volumeSlider := slider;
      volumeLabel := FormatHalfStep(volume);
      InitialVolumeLabel();
    }

    /** _togglePowerButton: the request that switches the receiver to the
        switch's new state. */
    method TogglePowerButton(state: bool) returns (url: string)
      ensures url == PowerCommandUrl(baseUrl, state)
      ensures DecodeCommandUrl(baseUrl, url) == Some(Command(PowerCommand, if state then "ON" else "STANDBY"))
    {
      if state {
        url := CommandUrl(baseUrl, PowerCommand, "ON");
      } else {
        url := CommandUrl(baseUrl, PowerCommand, "STANDBY");
      }
      assert url == PowerCommandUrl(baseUrl, state);
    }

    /** _changeVolume, run when the slider moves: the label shows the
        slider's half-step volume, the icon follows the slider, and the
        request sets the receiver to exactly the volume the label shows. */
    method ChangeVolume() returns (url: string)
      modifies this, volumeSlider
      ensures volumeSlider.value == old(volumeSlider.value)
      ensures volumeLabel == FormatHalfStep(SliderVolume(volumeSlider.value))
      ensures volumeSlider.icon == IconFor(volumeSlider.value)
      ensures url == VolumeCommandUrl(baseUrl, SliderVolume(volumeSlider.value))
      ensures DecodeCommandUrl(baseUrl, url) == Some(Command(VolumeCommand, volumeLabel))
      ensures ParseDecimal(volumeLabel) == Some(SliderVolume(volumeSlider.value))
      ensures powerLabel == old(powerLabel) && powerOn == old(powerOn)
    {
      var volume := volumeSlider.GetVolume();
      assert volume == SliderVolume(volumeSlider.value);
      var text := FormatHalfStep(volume);
      FormatParseRoundTrip(volume);
      url := CommandUrl(baseUrl, VolumeCommand, text);
      assert url == VolumeCommandUrl(baseUrl, volume);
      volumeLabel := text;
      volumeSlider.ChangeIcon();
    }

    /** _updateStatus: opening the menu requests the status page; closing
        it requests nothing. */
    method UpdateStatus(open: bool) returns (request: Option<string>)
      ensures request.Some? <==> open
      ensures request.Some? ==> request.value == StatusUrl(baseUrl)
      ensures request.Some? ==> DecodeCommandUrl(baseUrl, request.value) == None
    {
      if open {
        request := Some(StatusUrl(baseUrl));
      } else {
        request := None;
      }
    }

    /** The last two steps of _parseResponse: the slider takes the volume
        and the label shows the slider's reading of it, which is the volume
        itself when that is a half-step. */
    method ShowVolume(x: real)
      modifies this, volumeSlider
      ensures volumeSlider.value == FractionOf(x) && volumeSlider.icon == old(volumeSlider.icon)
      ensures volumeLabel == FormatHalfStep(SliderVolume(volumeSlider.value))
      ensures IsHalfStep(x) ==> volumeLabel == FormatHalfStep(x)
      ensures powerLabel == old(powerLabel) && powerOn == old(powerOn)
    {
      volumeSlider.SetVolume(x);
      var shown := volumeSlider.GetVolume();
      volumeLabel := FormatHalfStep(shown);
      if IsHalfStep(x) {
        SetThenGet(x);
      }
    }

    /** The body of _parseResponse once all three fields are found: the
        switch shows the name and is on exactly for the token ON, and the
        volume text, when it reads as a number, goes to the slider and the
        label; otherwise the label reads "NaN". */
    method ShowStatus(name: string, power: string, volumeText: string)
      requires IsVolumeText(volumeText)
      modifies this, volumeSlider
      ensures powerLabel == name && powerOn == (power == "ON")
      ensures volumeSlider.icon == old(volumeSlider.icon)
      ensures match ParseDecimal(volumeText)
              case Some(x) =>
                && volumeSlider.value == FractionOf(x)
                && volumeLabel == FormatHalfStep(SliderVolume(volumeSlider.value))
                && (IsHalfStep(x) ==> volumeLabel == FormatHalfStep(x))
              case None =>
                volumeSlider.value == old(volumeSlider.value) && volumeLabel == "NaN"
    {
      powerLabel := name;
      powerOn := power == "ON";
      var number := ParseDecimal(volumeText);
      if number.Some? {
        ShowVolume(number.value);
      } else {
        volumeLabel := "NaN";
      }
    }

    /** _parseResponse: with status 200 and all three fields found, the
        switch shows the name and is on exactly for the token ON, and the
        slider and label take the reported volume; otherwise nothing
        changes. */
    method ParseResponse(statusCode: int, data: string)
      modifies this, volumeSlider
      ensures !Found(statusCode, data) ==>
                && powerLabel == old(powerLabel) && powerOn == old(powerOn)
                && volumeLabel == old(volumeLabel)
                && volumeSlider.value == old(volumeSlider.value)
                && volumeSlider.icon == old(volumeSlider.icon)
      ensures Found(statusCode, data) ==>
                && powerLabel == Extract(FriendlyName, data).value
                && powerOn == (Extract(ZonePower, data).value == "ON")
                && volumeSlider.icon == old(volumeSlider.icon)
      ensures Found(statusCode, data) ==>
                match ParseDecimal(Extract(MasterVolume, data).value)
                case Some(x) =>
                  && volumeSlider.value == FractionOf(x)
                  && volumeLabel == FormatHalfStep(SliderVolume(volumeSlider.value))
                  && (IsHalfStep(x) ==> volumeLabel == FormatHalfStep(x))
                case None =>
                  volumeSlider.value == old(volumeSlider.value) && volumeLabel == "NaN"
    {
      if statusCode == 200 {
        var name := Extract(FriendlyName, data);
        var power := Extract(ZonePower, data);
        var volume := Extract(MasterVolume, data);
        if name.Some? && power.Some? && volume.Some? {
          ShowStatus(name.value, power.value, volume.value);
        }
      }
    }
  }
}
