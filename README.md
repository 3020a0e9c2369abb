# Denon AVR controller panel applet — Dafny model

A model of the logic in the GNOME Shell applet that drives a Denon AV
receiver over its HTTP control interface (`src/extension.js`). Three parts
carry behaviour that can be stated, and each is modelled and proved:

- **Volume slider** (module `Volume`): the linear map from receiver dB in
  [-80, 18] to a slider fraction, the read-back with its exact half-step
  rounding (floor, then add 0.5 when the remainder is at least 0.5), and
  the four-way volume icon. The slider widget is a class `VolumeSlider`
  with its value and icon.
- **Commands** (module `Commands`): the power and volume commands and the
  request URL `baseUrl + "MainZone/index.put.asp?cmd0=" + command + "%2F" + arg`,
  with a decoder that reads a URL back into its command and argument.
- **Status page and displayed state** (modules `StatusScrape` and
  `Indicator`): the three regular expressions over the receiver's status
  page are modelled exactly as searches (leftmost match; `(.+)` greedy up to
  the last closing tag on the line; `([A-Z]+)` and `(-?[0-9.]+)` with their
  single possible capture), and the indicator is a class whose fields stand
  for the power switch's label and state, the slider and the volume label.
  `ParseResponse` changes them only for status 200 with all three fields
  found.

Module `NumberText` holds the two number/text conversions the applet relies
on: `Number.prototype.toString` for the half-step volumes it displays and
sends, and the string-to-number coercion applied to the scraped volume text.
Module `Wrappers` holds `Option`.

Requests are not sent: a handler returns the URL it would request. The
response to the status request is a parameter (status code and page text).
Numbers are exact reals.

The applet reads three fields from the status page: the name, the power
state and the volume. The name capture `(.+)` is greedy, so it runs to the
last `</value></FriendlyName>` on the same line. The command URL is
`baseUrl` followed directly by `MainZone/...`, so the configured base URL
must end with `/`. The applet speaks one firmware dialect and has no input
selection.

## Model

| member | source | states |
|---|---|---|
| `Volume.FractionOf` | src/extension.js:100-103 | setVolume's fraction maps back to exactly the given dB, and a volume is in [-80, 18] exactly when its fraction is in [0, 1] |
| `Volume.DbOf` | src/extension.js:107 | the unrounded dB of a fraction is the volume whose fraction it is (inverse of setVolume's map) |
| `Volume.FractionOrder` | src/extension.js:93-94 | -80 dB maps to fraction 0, 18 dB to 1, and the map is strictly increasing in both directions |
| `Volume.RoundHalfStep` | src/extension.js:108-113 | the rounding gives a multiple of 0.5, equal to floor(v) or floor(v) + 0.5, with result <= v < result + 0.5 |
| `Volume.HalfStepUnique` | src/extension.js:108-113 | any half-step h with h <= v < h + 0.5 is the rounded value: the contract determines the rounding |
| `Volume.HalfStepBelow` | src/extension.js:108-113 | the rounded value is the largest half-step not above v |
| `Volume.RoundIsHalfOfDoubleFloor` | src/extension.js:108-113 | the floor-then-add-a-half rule equals floor(2v) / 2 |
| `Volume.SliderVolume` | src/extension.js:105-115 | getVolume of a fraction is a half-step at most 0.5 below the unrounded dB of the fraction, and its own fraction is not above the slider's |
| `Volume.SetThenGet` | src/extension.js:102 | setting a half-step volume and reading the slider back gives that volume |
| `Volume.SliderVolumeMonotone` | src/extension.js:105-115 | a higher slider fraction never reads back as a lower volume |
| `Volume.IconFor` | src/extension.js:117-137 | exactly one icon: muted iff the fraction is 0, low iff nonzero and below 0.3, medium iff in [0.3, 0.7), high iff at least 0.7 |
| `Volume.IconMonotone` | src/extension.js:121-136 | on fractions at or above 0, a louder slider never shows a quieter icon |
| `Volume.IconByVolume` | src/extension.js:121-136 | in dB: muted exactly at -80, low below -50.6, medium below -11.4, high from -11.4 up |
| `Volume.VolumeSlider.constructor` | src/extension.js:89-98 | a new slider has the medium icon and the fraction of the given volume |
| `Volume.VolumeSlider.SetVolume` | src/extension.js:100-103 | the slider value becomes the volume's fraction; the icon is untouched |
| `Volume.VolumeSlider.GetVolume` | src/extension.js:105-115 | returns a half-step within 0.5 below the slider's dB value, the rounding of it |
| `Volume.VolumeSlider.ChangeIcon` | src/extension.js:117-137 | the icon becomes the classification of the slider value, which is unchanged |
| `NumberText.NatToString` | src/extension.js:206 | decimal digits of a whole number, non-empty, without leading zeros |
| `NumberText.DigitsRoundTrip` | src/extension.js:206 | the digits written for a number read back as that number |
| `NumberText.DigitsAppend` | src/extension.js:252 | digits written after other digits shift them left by their count: the value of w followed by f is the value of w times ten to the length of f, plus the value of f |
| `NumberText.ParseUnsignedDefined` | src/extension.js:252 | unsigned digits-and-dots text is a number exactly when it has a digit and at most one dot (otherwise NaN) |
| `NumberText.ParseUnsigned` | src/extension.js:252 | Number() of unsigned digits-and-dots text, when defined, is never negative |
| `NumberText.ParseUnsignedValue` | src/extension.js:252 | digits, a dot and digits (not both sides empty) coerce to the value of the digits before the dot plus the digits after it over ten to their count |
| `NumberText.DecimalValueScaled` | src/extension.js:252 | that value is all the digits read together divided by ten to the number of digits after the dot |
| `NumberText.ParseDecimal` | src/extension.js:252 | the scraped volume text `-?[0-9.]+` is a number exactly when its unsigned part is well formed; the sign decides the sign of the value |
| `NumberText.NegativeDecimal` | src/extension.js:252 | a minus sign before digits, a dot and digits gives volume-pattern text that coerces to minus their value |
| `NumberText.ReceiverWholeVolumeText` | src/extension.js:252 | the receiver's whole-decibel volume text "-33.0" coerces to -33 |
| `NumberText.ReceiverHalfVolumeText` | src/extension.js:252 | the receiver's half-decibel volume text "-32.5" coerces to -32.5 |
| `NumberText.FormatHalfStep` | src/extension.js:206 | toString of a half-step is text of the volume pattern's shape, starting with '-' exactly for negative volumes |
| `NumberText.FormatParseRoundTrip` | src/extension.js:206-210 | the label and command text of a half-step coerces back to exactly that volume |
| `Commands.PowerArgument` | src/extension.js:194-201 | the power argument is ON exactly when the switch is on, and is always ON or STANDBY |
| `Commands.CommandUrl` | src/extension.js:216 | the request URL starts with the base URL, ends with the argument verbatim, and is exactly as long as its five parts: nothing is escaped or added |
| `Commands.DecodeCommandUrl` | src/extension.js:216 | a decoded URL is rebuilt exactly by the command URL of its command and argument |
| `Commands.CommandUrlRoundTrip` | src/extension.js:216 | command and argument are recovered verbatim from the URL: nothing is escaped or added |
| `Commands.CommandUrlInjective` | src/extension.js:216 | different commands or arguments give different URLs |
| `Commands.PowerCommandUrl` | src/extension.js:192-202 | the power request decodes to PutSystem_OnStandby, with argument ON exactly when the state is on and STANDBY otherwise |
| `Commands.VolumeCommandUrl` | src/extension.js:204-212 | the volume request decodes to PutMasterVolumeSet, with an argument of the volume pattern's shape that coerces to exactly the volume |
| `StatusScrape.CaptureAt` | src/extension.js:242-244 | a capture found at a position is a match of the field's pattern there |
| `StatusScrape.CaptureAtComplete` | src/extension.js:242-244 | any match at a position is found; it is no longer than the capture taken, and for power and volume it is the capture taken |
| `StatusScrape.FirstMatchFrom` | src/extension.js:246-248 | the start found is the leftmost position at which a capture is taken, and no earlier position yields one |
| `StatusScrape.Extract` | src/extension.js:246-248 | exec(data)[1]: a found value has the pattern's shape (non-empty line text, uppercase letters, -?[0-9.]+) |
| `StatusScrape.ExtractIsLeftmost` | src/extension.js:242-248 | with the leftmost match at i, Extract returns the capture at i, the longest there, the only one for power and volume |
| `StatusScrape.ExtractFindsAnyMatch` | src/extension.js:246-248 | exec fails only when the pattern matches nowhere in the page |
| `StatusScrape.ExtractElementAtStart` | src/extension.js:242-248 | an element at the start of the page is read back as its value (a name element when its line ends after it) |
| `Indicator.StatusUrl` | src/extension.js:230 | the status page request lies under the base URL and is never read as a command |
| `Indicator.InitialVolumeLabel` | src/extension.js:180-181 | the initial -33 dB shows as the label "-33" |
| `Indicator.DenonAvrIndicator.constructor` | src/extension.js:179-181 | the switch reads AVR and is off, the slider is at -33 dB with the medium icon, the label shows "-33" |
| `Indicator.DenonAvrIndicator.TogglePowerButton` | src/extension.js:192-202 | the request is PutSystem_OnStandby with ON for true and STANDBY for false |
| `Indicator.DenonAvrIndicator.ChangeVolume` | src/extension.js:204-212 | label shows the slider's half-step volume, the icon follows the slider, and the request carries exactly the label's volume; the switch is untouched |
| `Indicator.DenonAvrIndicator.UpdateStatus` | src/extension.js:224-234 | opening the menu requests the status page, closing it requests nothing |
| `Indicator.DenonAvrIndicator.ShowVolume` | src/extension.js:252-253 | the slider takes the volume and the label shows the slider's reading of it, which is the volume itself for a half-step; the switch is untouched |
| `Indicator.DenonAvrIndicator.ShowStatus` | src/extension.js:250-253 | the switch shows the name and is on iff the token is exactly ON; a volume text that coerces to a number goes to the slider and label, otherwise the label reads "NaN" |
| `Indicator.DenonAvrIndicator.ParseResponse` | src/extension.js:236-255 | unless status is 200 and name, power and volume are all found, nothing changes; otherwise the label takes the name, the switch is on iff the token is exactly ON, the slider and label take the volume |

## Left out

- The HTTP session, `queue_message` and its callbacks (network I/O): a request is the URL a method returns; a response is a given status code and page text.
- `loadSettings` and the settings schema (settings storage): the base URL is a constructor parameter and stays fixed, whereas the applet reloads it on every menu open.
- Widget construction, the `SliderItem` plumbing, `LabelWidget`, `stop`, `enable` and `disable` (user interface glue); the widgets are fields of the two classes.
- The slider widget's own behaviour (its clamping of the value, `_getCurrentValue`, and the value-change notification it may emit when `setVolume` is called from `_parseResponse`, which in the running applet can also run `_changeVolume`): it belongs to a library not visible here.
- Binary floating point: the model uses exact reals. With doubles, `(x + 80) / 98 * 98 - 80` can land just below a half-step `x`, and the floor-based rule then reads back `x - 0.5`; `Volume.SetThenGet` holds only for exact arithmetic.
- `NumberText.FormatHalfStep`: writes plain digits for every magnitude, whereas JavaScript switches to exponent notation from 1e21 on.
- `Indicator.DenonAvrIndicator.ParseResponse`: when the scraped volume text is not a number (`.` or `1.2.3`), JavaScript stores NaN in the slider; the model sets the label to "NaN" as JavaScript does but leaves the slider value unchanged, since a real cannot be NaN.
- The `TypeError` that `exec(...)[1]` throws when a field is missing is modelled by its effect only: the handler stops before any field changes.
- The full JavaScript regular expression engine: only the three fixed patterns are modelled, as searches with the same matches.
- Input-source selection and a second firmware dialect: not present in this version of the code.
- `src/prefs.js`: builds the settings dialog from a Gtk builder file; nothing to model.
