# mirage2iso in Dafny

mirage2iso converts a CD image that libmirage can read into a plain `.iso`.
It selects one session of the disc, and it copies the 2048-byte payload of
every sector of that session's first track to an output file or to
standard output. This project models the logic the program adds around
libmirage and proves properties of it. It has four modules, one per C
file, plus a small shared module:

- `MirageWrapper` (`mirage_wrapper.dfy`) covers the libmirage wrapper:
  - libmirage is a value. A disc is a sequence of sessions. A session is a
    sequence of tracks. A track has a mode, a start sector, a layout length
    and a map from sector number to the bytes a read returns. A missing key
    is a failed read.
  - The track-mode switch, the track size, and the open checks.
  - The sector loop that streams each sector to a file, or copies it into a
    buffer mapped onto the output file. This loop is an imperative method
    over an `array`.
  - The wrapper's module state is a class with fields for the disc, the
    session and the track count.
  - Truncation of the version string.
- `MiragePassword` (`mirage_password.dfy`) covers password input:
  - The password is kept in a 256-character buffer.
  - The line terminator is removed in place.
  - An empty password is refused.
  - The password is read only once and then returned from memory.
  - Forgetting the password zeroes the buffer.
- `MirageGetopt` (`mirage_getopt.dfy`) covers the getopt wrapper:
  - The two loops that size and fill the short-option string from a
    `struct option` table.
  - The build variant that has no `getopt_long`.
- `Mirage2Iso` (`mirage2iso.dfy`) covers the command itself:
  - `try_atoi`, over a model of `strtol` in base 0.
  - The guessed output file name.
  - The option loop of `main` and the consistency rules between its flags.
  - `output_track`'s check that the size is not zero.
  - Extraction of track 0 only.
- `Common` (`common.dfy`) holds an option type, the byte type, and C strings,
  which are character sequences read up to their first NUL. Each character
  stands for one byte.

## Model

| member | source | states |
|---|---|---|
| MirageWrapper.ClassifyMode | mirage-wrapper.c:200-228 | Mode 1 alone is supported and gives 2048-byte sectors. Mode 0, audio, Mode 2, Mode 2 Form 1, Mode 2 Form 2 and mixed Mode 2 are unsupported. Every other value is unknown. Each direction is stated as an if-and-only-if. |
| MirageWrapper.GetTrackCommon | mirage-wrapper.c:165-238 | A track comes back exactly when the index exists and its mode is Mode 1, and then `*sectsize` is 2048. On every other path `*sectsize` is left as it was. An unsupported mode is reported only when verbose. A missing track or an unknown mode is always reported. |
| MirageWrapper.SessionByIndex | mirage-wrapper.c:140-143 | The session lookup the wrapper passes the number to: -1 is the last session, 0..n-1 the one with that index, and any other number fails. |
| MirageWrapper.SessionTrackSize | mirage-wrapper.c:240-256 | The size is 2048 × (length − start) for a Mode 1 track and 0 for a rejected or missing one. It is positive exactly when the track is returned and not empty. |
| MirageWrapper.WrapInt | mirage-wrapper.c:255 | The result of `int` arithmetic always lies in the 32-bit range, differs from the exact value by a multiple of 2^32 (two's-complement wrap-around), and is unchanged when already in range. |
| MirageWrapper.ToSizeT | mirage-wrapper.c:255 | Converting a non-negative `int` result to `size_t` keeps it. A negative one becomes that value plus 2^64. |
| MirageWrapper.TrackSizeAsWritten | mirage-wrapper.c:255 | The size as written (the 32-bit `int` product converted to a 64-bit `size_t`) is always below 2^64 and a multiple of 2048. It equals 2048 × (length − start) below 2^20 sectors. |
| MirageWrapper.TrackSizeAsWrittenAgrees | mirage-wrapper.c:255 | Below 2^20 sectors, the size as written (an `int` product converted to `size_t`) equals the exact size. |
| MirageWrapper.TrackSizeWrapsNegative | mirage-wrapper.c:255 | As written, a Mode 1 track of 2^20 sectors gets size 2^64 − 2^31: the `int` product wraps to INT_MIN, and that becomes a huge `size_t`. |
| MirageWrapper.TrackSizeOverflow | mirage-wrapper.c:255 | As written, a Mode 1 track of 2^21 sectors gets size 0, the error value, although its real size is 4 GiB. |
| MirageWrapper.WalkStep | mirage-wrapper.c:289-321 | One loop iteration: a faulty sector ends the walk with it as the last sector visited. A good sector is appended to the visited list and its bytes to the output. The rest of the walk continues with the room that remains. |
| MirageWrapper.WalkInOrder | mirage-wrapper.c:288-289 | The sectors read are start, start+1, … in ascending order, each once, and none at or past the layout length. |
| MirageWrapper.WalkSucceeds | mirage-wrapper.c:289-321 | Extraction succeeds if and only if every sector in [start, length) reads back 2048 bytes and the output has room for all of them. It then reads every sector and delivers 2048 bytes per sector. |
| MirageWrapper.WalkStopsAtFault | mirage-wrapper.c:293-318 | A failed extraction stops at the first sector that is missing, the wrong size or out of room. Every earlier sector was delivered whole, and no later sector is read. |
| MirageWrapper.WalkLayout | mirage-wrapper.c:309-320 | The payload of sector k lies at offset (k − start) × 2048 of the output. |
| MirageWrapper.ExtractionMatchesSize | mirage-wrapper.c:240-327 | A successful extraction delivers exactly as many bytes as get_track_size reports for that track. |
| MirageWrapper.OutputFile.Write | mirage-wrapper.c:310-318 | fwrite succeeds if and only if the data fits in the room left. Then the data is appended. Otherwise the stream is unchanged. |
| MirageWrapper.OutputFile.CommitMapping | mirage2iso.c:123-152 | The file takes the contents of the region mapped onto it. |
| MirageWrapper.CopySectors | mirage-wrapper.c:288-321 | The sector loop. Its result, the sectors it visits, and its output are exactly those of the reference walk `Walk`. In stream mode the payload is appended to the stream and the room shrinks by its length. In buffer mode the payload fills the buffer from offset 0, and the buffer past it and the stream are untouched. |
| MirageWrapper.PutSector | mirage-wrapper.c:309-320 | In stream mode, one fwrite succeeds exactly when the sector fits, and only then changes the stream. In buffer mode, the sector is placed at `off` and nothing else changes. |
| MirageWrapper.CopyInto | mirage-wrapper.c:319-320 | The buffer holds the sector's bytes at `off`, and all other positions keep their old contents. |
| MirageWrapper.Wrapper.constructor | mirage-wrapper.c:24-26 | Before the wrapper is opened, no disc or session is selected and the track count is 0. |
| MirageWrapper.Wrapper.Open | mirage-wrapper.c:109-154 | Open succeeds if and only if the image opens, it has a session, the requested session exists, and that session has a track. The session is selected as soon as the disc has sessions. It then keeps the state invariant. |
| MirageWrapper.Wrapper.TrackCount | mirage-wrapper.c:156-163 | The count is 0 before a session is selected, and otherwise the selected session's number of tracks. |
| MirageWrapper.Wrapper.TrackSize | mirage-wrapper.c:240-256 | The size is 0 before a session is selected, and otherwise the session's track size. |
| MirageWrapper.Wrapper.OutputTrack | mirage-wrapper.c:258-327 | Without a session, or with a rejected track, it fails, reads nothing and writes nothing. Otherwise its result, visited sectors and output match `TrackExtraction`, in stream mode and in buffer mode. |
| MirageWrapper.GetVersion | mirage-wrapper.c:77-99 | NULL before init or on a library error. Otherwise the C string is cut to at most 9 characters, and "too long" is reported exactly when it had more. |
| MiragePassword.FgetsCount | mirage-password.c:26 | fgets takes up to the first newline, inclusive, and never more than the buffer allows. |
| MiragePassword.Fgets | mirage-password.c:26-30 | fgets fails exactly at end of input. Otherwise it stores a nonempty prefix of the input of at most 255 characters, exactly as long as FgetsCount says: up to and including the first newline. |
| MiragePassword.StripNewline | mirage-password.c:33-42 | At most two trailing terminator characters are removed, and the rest is a prefix of the input. Something is removed if and only if the last character is LF or CR. Two are removed if and only if the last two are different terminator characters. |
| MiragePassword.StripTerminatorPairs | mirage-password.c:37-42 | CR/LF and LF/CR are removed whole. LF/LF and CR/CR keep their first character. |
| MiragePassword.StoreLine | mirage-password.c:26 | After fgets, the buffer holds the line as a C string with its NUL inside the buffer. |
| MiragePassword.StripInPlace | mirage-password.c:33-42 | The in-place NUL writes leave the buffer holding `StripNewline` of its old string. |
| MiragePassword.PasswordStore.constructor | mirage-password.c:14 | No buffer exists before the first request. |
| MiragePassword.PasswordStore.InputPassword | mirage-password.c:16-53 | With a buffer, it returns the kept password and reads nothing. On the first call, it reads one line, strips it and keeps it, or returns NULL when the read fails or the result is empty. A password is 1 to 255 characters long. |
| MiragePassword.PasswordStore.ForgetPassword | mirage-password.c:55-61 | All 256 bytes of an existing buffer become NUL. Without a buffer nothing happens. |
| MiragePassword.AskTwice | mirage-password.c:16-53 | Once a password is held, asking again returns the same one, and stdin loses only the one line read the first time. |
| MirageGetopt.ShortOptionsSplit | mirage-getopt.c:29-36 | The string lists the nonzero `val`s in table order. A `:` follows a `val` exactly when its argument is required. A zero `val` contributes nothing. |
| MirageGetopt.ShortOptionsLength | mirage-getopt.c:16-24 | The counted length is 1 for the terminator, plus the characters written, plus one unused slot for each optional-argument option. |
| MirageGetopt.ShortOptionBuffer | mirage-getopt.c:26-36 | The buffer has the counted length. It holds the short-option string followed by its NUL, so the writes stay below `len`. |
| MirageGetopt.FallbackGetopt | mirage-getopt.c:48-52 | Without getopt_long, optind is reset to 1 and -1 is returned. |
| MirageGetopt.Mirage2IsoShortOptions | mirage2iso.c:39-48 | mirage2iso's option table builds the short-option string "cf?s:SvV", with no unused optional-argument slots. |
| Mirage2Iso.SpacesEnd | mirage2iso.c:78 | The end of strtol's leading white space stays within the string, at or after where the skip starts. |
| Mirage2Iso.SpacesEndSkips | mirage2iso.c:78 | strtol skips exactly the leading white space: every character it passes over is white space, and the one it stops at is not. |
| Mirage2Iso.DigitsEnd | mirage2iso.c:78 | The run of digits of the base stays within the string. |
| Mirage2Iso.ClampLong | mirage2iso.c:78 | An out-of-range value saturates to LONG_MIN or LONG_MAX. A value in range is kept. |
| Mirage2Iso.Strtol | mirage2iso.c:78 | strtol in base 0 never consumes more than the string and always returns a `long`. |
| Mirage2Iso.DigitsFrom | mirage2iso.c:78 | The conversion consumes nothing, or something past the start of the digits. |
| Mirage2Iso.TryAtoi | mirage2iso.c:74-84 | It succeeds if and only if strtol consumes the whole string. On failure `*out` is unchanged. On success `*out` is strtol's result narrowed to `int`. |
| Mirage2Iso.DigitsValueOfDigits | mirage2iso.c:78 | Reading the decimal digits of m back gives m. |
| Mirage2Iso.DigitsEndExact | mirage2iso.c:78 | The digit run ends at the first non-digit. |
| Mirage2Iso.StrtolUnprefixed | mirage2iso.c:78 | With no white space, no plus sign and no "0x", the digits start after the minus sign, and a leading 0 means octal. |
| Mirage2Iso.DigitsFromDecimal | mirage2iso.c:78 | Decimal digits followed by a non-digit convert to their value, with the sign applied. |
| Mirage2Iso.StrtolDecimal | mirage2iso.c:78 | strtol reads the decimal spelling of any `long` back exactly and consumes exactly that spelling. |
| Mirage2Iso.TryAtoiDecimal | mirage2iso.c:74-84 | A decimal `--session` argument is accepted. Its value is narrowed to `int` and is exact when in range. |
| Mirage2Iso.TryAtoiWraps | mirage2iso.c:74-84 | A decimal value between INT_MAX and 2^32 is accepted as that value minus 2^32. For example, 4294967295 becomes -1, the last session. |
| Mirage2Iso.TryAtoiTrailing | mirage2iso.c:79-80 | A number followed by a character that ends the numeral (a non-digit other than x or X) is refused, and `*out` keeps its value. |
| Mirage2Iso.TryAtoiCorners | mirage2iso.c:74-84 | "08" is refused because it is octal and stops at the 8. "0x1f" is 31. The empty string is accepted as 0. |
| Mirage2Iso.LastDot | mirage2iso.c:220 | strrchr finds the last '.' and no '.' after it, or None when there is no '.'. |
| Mirage2Iso.GuessedName | mirage2iso.c:220-229 | The name ends in ".iso". Its stem is the input up to its last '.', or the whole input when it has no '.'. |
| Mirage2Iso.BuildOutputName | mirage2iso.c:221-229 | The `namelen + 5` buffer holds exactly the guessed name and its terminator. |
| Mirage2Iso.GuessAsWritten | mirage2iso.c:228-229 | The name as strncpy and strcat build it. Whenever strcat stays inside the `namelen + 5` buffer, the result is the intended guessed name. |
| Mirage2Iso.GuessAsWrittenNeedsZero | mirage2iso.c:228-229 | As written, with strncpy then strcat, the name comes out right if and only if the new allocation happens to hold a NUL at `namelen`. Any other byte there makes strcat write past the buffer. |
| Mirage2Iso.GuessAsWrittenOverruns | mirage2iso.c:228-229 | For "a.b" with an allocation that holds no NUL, strcat overruns the buffer. |
| Mirage2Iso.StopCodeAt | mirage2iso.c:191-195 | The option loop ends at the first --version with EX_OK, or at the first --help (or bad option) with EX_USAGE. |
| Mirage2Iso.StopCodeNone | mirage2iso.c:169-197 | The loop runs through all the options if and only if neither --version nor --help is among them. |
| Mirage2Iso.Record | mirage2iso.c:170-196 | One pass of the option switch. -c, -f, -S and -v each turn on only their own flag. A --session argument sets the session to its narrowed value when strtol consumes it whole, and otherwise leaves the session unchanged. No other option touches the session. |
| Mirage2Iso.SettingsFlags | mirage2iso.c:163-190 | Each of the force, stdout, stdio and verbose flags is on if and only if its option was given. |
| Mirage2Iso.SessionSettingKeepsDefault | mirage2iso.c:163-179 | When no `--session` argument is accepted, the session stays -1, the last session. |
| Mirage2Iso.SessionSettingSource | mirage2iso.c:163-179 | The session number is -1, or the narrowed value of some accepted `--session` argument. |
| Mirage2Iso.SessionSettingLast | mirage2iso.c:177-179 | The last accepted --session argument wins: when no later --session argument is accepted, the session is that argument's narrowed value. |
| Mirage2Iso.ScanOptions | mirage2iso.c:169-197 | The loop stops with the exit code of the first --version or --help. Otherwise it ends with the settings of the whole option sequence. |
| Mirage2Iso.ParseCommandLine | mirage2iso.c:162-248 | Exit with EX_USAGE when there is no input, when `--stdout` is given with an output name, or when an unforced guessed name already exists; --version and --help end parsing first. Otherwise convert with: the first operand as input; standard output under `--stdout`, else the given name, else the guessed one; `--stdout` implying stdio; and the accumulated session and verbose settings. |
| Mirage2Iso.OutputTrack | mirage2iso.c:86-160 | A size of 0 gives EX_DATAERR before the output is touched. EX_DATAERR happens only then. For a nonzero size, the result is EX_OK if and only if the extraction succeeds, and EX_IOERR otherwise. EX_OK means track n is Mode 1 and the file holds its full extraction, of the reported size, through the mapping or through the stream. |
| Mirage2Iso.RunConversion | mirage2iso.c:250-280 | An image that does not open gives EX_DATAERR and writes nothing. "Several tracks" is noted exactly when the session has more than one track. When the session opens, its track 0 is a nonempty Mode 1 track and its extraction succeeds, the result is EX_OK. On EX_OK the output holds track 0 of the selected session: 2048 × (length − start) bytes. The code is always EX_OK, EX_DATAERR or EX_IOERR. Once the session opens, EX_DATAERR comes exactly when track 0's size is 0, and then the output is untouched. |

## Left out

- libmirage is a value, not a library. Its attribute queries (session count, track count, track start, length, mode) cannot fail here. Their error branches only print a message and return failure.
- The library decides what session numbers other than -1 and 0..n-1 mean. Here they find no session.
- Mode numbers are the values of libmirage's `mirage.h`, which is not part of this model. The proofs use only the fact that the values are distinct.
- Mode 2 Form 1 sectors also carry 2048 bytes of user data, but the code rejects them as unsupported (mirage-wrapper.c:215-217). The model follows the code.
- miragewrap_init and miragewrap_free are left out, and so are the EX_SOFTWARE, EX_OSERR and EX_CANTCREAT exits that depend on them, on malloc or on fopen.
- malloc failures are left out: the password buffer, the sector buffer and the name buffer are always allocated.
- Messages to stderr are left out: the help text, the version line, progress lines and diagnostics. GetTrackCommon keeps only whether a diagnostic is printed.
- The output-file ladder of output_track (fopen, ftruncate, mmap, freopen, munmap, fclose) is OS file I/O and is left out. `forceStdio` picks the stream path and otherwise the mapped path, with the mapping always succeeding. fclose errors are not modelled.
- The call at mirage2iso.c:139 passes arguments that do not match miragewrap_output_track's definition. The model follows the definition: a buffer in mmap mode, and a stream otherwise.
- The NO_MMAPIO build, where every output goes through stdio, is not modelled separately. It behaves like `forceStdio`.
- getopt_long itself is not modelled: the options reach main as an already parsed sequence. The NO_GETOPT_LONG fallback is modelled.
- fgets I/O errors other than end of input are left out.
- Multi-byte character encodings are not modelled: each `char` stands for one byte, so the 256-byte fgets limit and strlen and strrchr count characters here. A password whose characters take several bytes is cut at 255 bytes by the C code, possibly inside a character, and that is not captured.
- MiragePassword.PasswordStore.InputPassword: after a failed read, or after forgetting, the C code frees the buffer but keeps the pointer. The model records this with `released` and does not allow further calls. Whatever the C code would do next is not modelled.
- Mirage2Iso.Strtol assumes a 64-bit `long`.
- MirageWrapper.SessionTrackSize: uses the corrected size 2048 × (length − start), not the 32-bit product line 255 computes. TrackSizeAsWritten models the code as written.
- MirageWrapper.Wrapper.TrackSize: uses the corrected size 2048 × (length − start), not the size line 255 computes. From 2^20 sectors the code gives a different value (2^64 − 2^31 at 2^20 sectors, 0 at 2^21), as TrackSizeAsWritten and TrackSizeOverflow show.
- Mirage2Iso.OutputTrack: works with the corrected track size. For a track of 2^20 sectors or more the code computes a different size; at 2^21 sectors it returns EX_DATAERR where the model can return EX_OK.
- Mirage2Iso.RunConversion: extracts track 0 with the corrected track size. For a track of 2^20 sectors or more the code differs, as in Mirage2Iso.OutputTrack.
- MirageWrapper.CopySectors: a read of the wrong length in buffer mode is treated as a failed sector, before anything is copied. The C code has already stored the bytes by then.
- MirageWrapper.OutputFile.Write: fwrite is all-or-nothing, against an exact count of the room left on the device. A real buffered stream may store part of a sector before failing, and a full device often shows up at a later fwrite or at fclose instead. The failure path of CopySectors relies on this idealisation.
- MirageWrapper.WrapInt: signed `int` overflow is undefined behaviour in C. The model takes the two's-complement wrap-around that common compilers produce.
- GObject reference counting and memory release are resource bookkeeping, not behaviour, and are left out.

## Findings

| source | as written | input that shows it | evidently intended | confidence | as-written member | corrected member |
|---|---|---|---|---|---|---|
| mirage-wrapper.c:255 | `expssize * (len - sstart)` is computed in 32-bit `int` and then returned as `size_t` | a Mode 1 track of 2^21 sectors (4 GiB): the product overflows `int`, which is undefined behaviour in C; with the usual two's-complement wrap it becomes 0, so the track looks like an error. From 2^20 sectors the size is wrong (2^64 − 2^31 at 2^20) | the size in bytes, 2048 × (length − start) | high, not executed | MirageWrapper.TrackSizeOverflow | MirageWrapper.ExtractionMatchesSize |
| mirage2iso.c:228-229 | `strncpy(outbuf, in, namelen)` adds no terminator, because namelen ≤ strlen(in), and `strcat` then looks for a NUL in uninitialised memory | input "a.b" with a fresh allocation that holds no NUL: strcat writes past the `namelen + 5` buffer | the input up to its last '.', then ".iso" and a NUL, filling the buffer exactly | high, not executed | Mirage2Iso.GuessAsWrittenOverruns | Mirage2Iso.BuildOutputName |
