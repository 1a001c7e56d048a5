# Teams presence to Yeelight colour: a Dafny model

`teams_bulb_sync.py` watches the Microsoft Teams web client in a browser and
mirrors the user's presence onto a Yeelight bulb. Apart from browser and bulb
I/O, the script makes three decisions, and this project models and proves
properties of each one:

* **Status classification** (`get_teams_status`). The accessible label of the
  status button is lower-cased. It is then searched for "available", then
  "busy", then "away", and the first hit decides the status. When no word
  occurs, or reading the label raised an exception, the answer is "Unknown".
  Module `TeamsStatus`, on top of `Text` (lower-casing and the substring test).
* **Colour choice** (`update_bulb_color`). Busy is red, Available green, Away
  yellow, and any other string gray. Module `BulbColor`.
* **Configuration precedence** (`get_chromedriver_path`, `get_bulb_ip`). A
  positional argument wins over an environment variable, which wins over a
  built-in default. A chromedriver path that does not exist ends the process
  with status 1. Module `Config`.

Module `SyncLoop` puts classification and colour together for one tick of the
main loop and for a sequence of ticks.

The external parts are parameters of the model:
* the label read from the page is an `Option<string>`, with `None` for the
  generic exception path;
* `sys.argv` is a `seq<string>`, with index 0 being the script;
* `os.environ` is a `map<string, string>`;
* `os.getcwd()` is a `string`;
* `os.path.join` and `os.path.exists` are function parameters (`join`, `pathExists`);
* `sys.exit(1)` is a `Failure(1)` result.

## Model

| member | source | states |
|---|---|---|
| Text.LowerChar | teams_bulb_sync.py:87 | an upper-case ASCII letter becomes the matching lower-case letter, and every other character is unchanged |
| Text.ToLower | teams_bulb_sync.py:87 | lower-casing keeps the length and lower-cases every character in place |
| Text.SubstringStep | teams_bulb_sync.py:91-96 | a key occurs in a text exactly when it is at the front or occurs in the text after its first character |
| Text.Contains | teams_bulb_sync.py:91-96 | the scanning substring test holds exactly when some position of the text holds a copy of the key |
| TeamsStatus.Status.Label | teams_bulb_sync.py:91-98 | each status is reported as its own one of the four distinct strings Available, Busy, Away, Unknown |
| TeamsStatus.ClassifyLabel | teams_bulb_sync.py:87-98 | the lower-cased label gives Available exactly when "available" occurs, whatever else occurs; Busy exactly when "busy" occurs and "available" does not; Away exactly when "away" occurs and neither earlier word does; otherwise Unknown |
| TeamsStatus.GetTeamsStatus | teams_bulb_sync.py:78-104 | a poll classifies the extracted label, and is Unknown exactly when extraction failed or none of the three words occurs |
| TeamsStatus.ClassifyIgnoresCase | teams_bulb_sync.py:87-96 | two labels that agree after case folding, character by character, classify identically |
| TeamsStatus.ClassifyLowered | teams_bulb_sync.py:87 | classifying an already lower-cased label gives the same answer as classifying the original |
| TeamsStatus.FirstHit | teams_bulb_sync.py:90-98 | reference search: the index of the first table key that occurs in the text, with no earlier key occurring |
| TeamsStatus.ClassifyIsFirstMatch | teams_bulb_sync.py:90-98 | the if/elif chain equals a first-match search over the ordered table available, busy, away with Unknown as default |
| BulbColor.ColorFor | teams_bulb_sync.py:107-116 | Busy is red (255,0,0), Available green (0,255,0), Away yellow (255,255,0); every colour requested has channels in 0..255, is one of these or gray, and is gray exactly for strings other than Busy, Available, Away |
| BulbColor.ColorForStatus | teams_bulb_sync.py:109-116 | Busy gives (255,0,0), Available (0,255,0), Away (255,255,0), Unknown (128,128,128) |
| BulbColor.ColorDistinguishesStatus | teams_bulb_sync.py:109-116 | two statuses give the same colour only when they are the same status |
| Config.Arg | teams_bulb_sync.py:15-16 | the positional argument at an index is present exactly when argv is longer than that index, and is then that element |
| Config.Env | teams_bulb_sync.py:19-20 | an environment variable is present exactly when the name is set, and is then its value |
| Config.FirstPresent | teams_bulb_sync.py:14-25 | the result is the value of the first present source, or the fallback when none is present |
| Config.FirstPresentShadows | teams_bulb_sync.py:14-25 | once a source is present, later sources and the fallback cannot change the result |
| Config.DriverCandidate | teams_bulb_sync.py:14-25 | the driver path is argv[1] if given, else $CHROMEDRIVER_PATH if set, else cwd joined with chromedriver.exe |
| Config.ChromeDriverPath | teams_bulb_sync.py:13-37 | the chosen path is returned exactly when it exists; otherwise the outcome is exit status 1 |
| Config.BulbIp | teams_bulb_sync.py:40-51 | the bulb address is argv[2] if given, else $BULB_IP if set, else 192.168.1.100 |
| Config.BulbIpArgShadowsEnv | teams_bulb_sync.py:41-46 | with a bulb address on the command line, the environment has no influence |
| Config.DriverArgShadowsEnv | teams_bulb_sync.py:15-25 | with a driver path on the command line, neither the environment, the working directory nor the path join has any influence |
| Config.Startup | teams_bulb_sync.py:53-55 | start-up succeeds exactly when the chosen driver path exists, and then carries that path and the resolved bulb address |
| SyncLoop.Tick | teams_bulb_sync.py:134-136 | a tick reads the poll's status and requests, with valid channels, green, red, yellow or gray according to which words the label contains, or gray when extraction failed |
| SyncLoop.ColorTrace | teams_bulb_sync.py:132-137 | over successive polls one valid colour is requested of the bulb per poll, each the one that poll's tick decides |

## Left out

- Text.LowerChar: folds only the ASCII letters A..Z. Python's `str.lower` also folds non-ASCII letters. The only non-ASCII characters whose lower case contains ASCII letters are the Kelvin sign, which gives "k", and dotted capital I, which gives "i" followed by a combining dot. Neither can create or destroy an occurrence of "available", "busy" or "away", so the classification is the same.
- Text.ToLower: lower-cases character by character with Text.LowerChar, so it shares that ASCII-only folding, and it keeps the length where Python lengthens dotted capital I.
- Browser session set-up, opening the Teams page, the 30-second `WebDriverWait` on the XPath query, and `driver.quit()` (lines 60-84, 141): these are browser I/O. What the query returns enters the model as the `Option<string>` label.
- `NoSuchWindowException` ending the process with `sys.exit(0)` (lines 99-101): this is a process effect. The model has only the two outcomes a label or a generic failure.
- Bulb construction, `set_rgb`, and the reconnect attempt through `bulb.__init__` and `get_properties` after a failed command (lines 58, 110-129): this is network device I/O. The model stops at the RGB triple chosen for `set_rgb`.
- The 10-second start-up wait, the 15-second sleep, the endless `while True` loop and `KeyboardInterrupt` handling (lines 75, 132-141): these concern timing and signals. `SyncLoop.ColorTrace` covers any finite prefix of the loop.
- All `print` output, and the `os.path.exists` file-system check, which is the `pathExists` parameter.
