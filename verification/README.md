# Log file naming, modelled in Dafny

A model of how the Go `log` package in `common/log/log_file.go` names its
log files. At process start it records an identity: the program name, the
process id, the host name cut at its first period, and the user name with
backslashes replaced by `_`. For each new file it then builds two names:

- the file name `<program>.<host>.<user>.log.<tag>.<YYYYMMDD>-<HHMMSS>.<pid>`;
- the symlink name `<program>.<tag>`, which points at the latest file for that tag.

The package-level variables (program, pid, host, user name) are passed in
explicitly as an `Identity`. The results of the host-name and current-user
lookups are `Option`s, where `None` means the lookup failed. The start time
is passed in as its six calendar fields, already extracted.

Modules:

- `Wrappers` (wrappers.dfy): `Option`.
- `Strings` (strings.dfy): the two calls into Go's `strings` package, restricted to
  the one-character arguments the code passes, and Go's string order.
- `Decimal` (decimal.dfy): `%d` (`NatToString`) and `%0Nd` (`PadDecimal`) for
  non-negative integers, plus `ParseDecimal`, which reads digits back.
- `Stamp` (stamp.dfy): the `YYYYMMDD-HHMMSS` segment, its parser, and its order.
- `LogFile` (log_file.dfy): `ShortHostname`, `SanitizeUserName`, `InitIdentity`
  and `LogName`, with the decoder and the uniqueness lemmas.

`LogName` is a Dafny function, so equal inputs give equal `(file, link)` pairs by
construction. Each output depends only on the arguments.

Host, user and tag may contain `.`. A file name therefore cannot be split back
into all of its parts. What the model proves instead: once program, host and
user are fixed, for in-range times the name determines the tag, the start time and the pid
(`LogNameInjective`). It also proves that the start time and pid can be decoded
when the tag is known (`LogNameDecode`).

The comment on line 38 speaks of "filepath separators" in general. The code
replaces only the backslash (log_file.go:39), and the model follows the code:
`/` is kept (`SanitizeKeepsSlash`).

## Model

| member | source | states |
|---|---|---|
| Strings.Index | common/log/log_file.go:45 | `strings.Index` with a one-character needle: -1 exactly when the character is absent, otherwise the position of its first occurrence |
| Strings.ReplaceAll | common/log/log_file.go:39 | `strings.Replace(s, old, new, -1)` with one-character arguments: same length, every occurrence of `old` replaced, every other character kept |
| Decimal.NatToString | common/log/log_file.go:54 | `%d` of a non-negative integer prints at least one character, all digits, with no leading zero except for 0 |
| Decimal.ParseNatToString | common/log/log_file.go:54 | reading back the `%d` rendering gives the number printed |
| Decimal.NatToStringInjective | common/log/log_file.go:54 | two numbers print the same under `%d` exactly when they are equal |
| Decimal.NatToStringLength | common/log/log_file.go:54 | a number prints in at most k digits exactly when it is below 10^k |
| Decimal.PadDecimal | common/log/log_file.go:54 | `%0Nd`: the field holds only digits and is max(N, digit count) wide; the `%d` digits are right-aligned with '0' before them; it reads back as the number |
| Decimal.PadDecimalWidth | common/log/log_file.go:54 | a number below 10^N fills an `%0Nd` field of exactly N characters |
| Decimal.PadDecimalInjective | common/log/log_file.go:54 | distinct numbers give distinct padded fields |
| Decimal.DigitStringOrder | common/log/log_file.go:54 | among digit strings of one length, string order is numeric order (both directions) |
| Decimal.PadDecimalOrder | common/log/log_file.go:54 | fields of one width sort as the numbers they hold (both directions) |
| Stamp.Format | common/log/log_file.go:54-64 | for in-range fields, the `%04d%02d%02d-%02d%02d%02d` segment is 15 characters: a '-' at index 8 and digits everywhere else |
| Stamp.ParseStamp | common/log/log_file.go:54 | the segment parser accepts exactly the `DDDDDDDD-DDDDDD` shape; each field it returns fits its width |
| Stamp.FormatParse | common/log/log_file.go:54-64 | parsing the printed segment of an in-range time gives back that time |
| Stamp.FormatInjective | common/log/log_file.go:54-64 | two in-range times print the same segment exactly when they are equal |
| Stamp.FormatOrder | common/log/log_file.go:54-64 | comparing two segments as strings orders their times chronologically (both directions) |
| LogFile.ShortHostname | common/log/log_file.go:44-49 | the short name has no period and is a prefix of the host name; it ends where the first period is, or is the whole name when there is none |
| LogFile.ShortHostnameCharacterised | common/log/log_file.go:44-48 | a string equals the short host name exactly when it is a period-free prefix followed by a period or by nothing |
| LogFile.ShortHostnameIdempotent | common/log/log_file.go:45-48 | shortening a short host name changes nothing |
| LogFile.ShortHostnameExample | common/log/log_file.go:42-43 | the documented example: "www.google.com" gives "www" |
| LogFile.ShortHostnameFirstPeriod | common/log/log_file.go:45-46 | the cut is at the first of several periods: "a.b.c" gives "a" |
| LogFile.SanitizeUserName | common/log/log_file.go:38-39 | same length; each backslash becomes '_'; every other character is unchanged; no backslash remains |
| LogFile.SanitizeFixedPoint | common/log/log_file.go:39 | sanitising leaves a user name unchanged exactly when it holds no backslash |
| LogFile.SanitizeIdempotent | common/log/log_file.go:39 | sanitising twice equals sanitising once |
| LogFile.SanitizeKeepsSlash | common/log/log_file.go:38-39 | only the backslash is replaced: a '/' stays in place |
| LogFile.PlaceholdersClean | common/log/log_file.go:23-24 | the placeholder host holds no period and the placeholder user holds no backslash |
| LogFile.InitIdentity | common/log/log_file.go:20-40 | program and pid are kept; a failed lookup leaves the placeholder; the host is the looked-up name cut at its first period (a period-free prefix followed by a period or by nothing); the user name keeps its length, each backslash of the looked-up name becomes '_' and every other character is kept |
| LogFile.Assemble | common/log/log_file.go:54 | the assembled name starts with its head, head plus tag plus '.', and ends with '.' plus the pid; its length is the sum of the parts plus the two separators |
| LogFile.LogName | common/log/log_file.go:53-67 | the link is program + "." + tag; the file name starts with `<program>.` and `<program>.<host>.<user>.log.<tag>.` and ends with "." + the `%d` of the pid; for an in-range time its length is those parts plus 17 |
| LogFile.DecodeTailJoined | common/log/log_file.go:54 | decoding `<stamp>.<pid>` gives the stamp's time and the pid's value |
| LogFile.DecodeAssembled | common/log/log_file.go:54 | decoding an assembled name with its head and tag gives the stamp's time and the pid's value |
| LogFile.LogNameDecode | common/log/log_file.go:53-65 | when the identity and tag are known, the start time and pid read back from the file name are the ones it was built from |
| LogFile.SplitAtLastDot | common/log/log_file.go:54 | if neither tail contains '.', two equal strings `a.d` split at the same point |
| LogFile.AssembleInjective | common/log/log_file.go:54 | with a common head, a fixed-width stamp and a period-free pid, the assembled name determines the tag, the stamp and the pid |
| LogFile.LogNameInjective | common/log/log_file.go:53-65 | for one program, host and user and for in-range times, two file names are equal exactly when tag, start time and pid all are |
| LogFile.LinkInjective | common/log/log_file.go:66 | for one program, two links are equal exactly when their tags are |
| LogFile.LinkIgnoresTimeAndProcess | common/log/log_file.go:66 | the link depends only on program and tag, not on time, host, user or pid |
| LogFile.DistinctTagsDistinctNames | common/log/log_file.go:53-66 | one process creating files for two different tags gets two different file names and two different links |

## Left out

- `create` (log_file.go:69-94) is left out. It is file-system I/O: `os.MkdirAll`, `os.OpenFile`, `os.Remove`, `os.Symlink`.
  Its paths are built with `filepath.Join`, whose path-cleaning rules belong to Go's library.
  Of its logic, only this is noted: it fails before touching the file system when the log
  directory is empty (log_file.go:74-76).
- The start-up lookups `os.Hostname`, `user.Current`, `os.Getpid` and `filepath.Base(os.Args[0])`
  (log_file.go:21-36) are not modelled. Their results are inputs to `InitIdentity`.
- Calendar and time-zone computation in `time.Time` is left out. The six fields are inputs.
- `MaxSize` (log_file.go:16) is left out. It is declared, and no code shown uses it.
- `LogDir` (log_file.go:18) is left out. Only `create` reads it.
- Negative integers are not modelled. Year and pid are `nat`, so Go's output for a negative
  year or pid (a leading '-') is out of scope.
- Stamp.FormatParse: proved only for in-range fields (year 0-9999, month 1-12, day 1-31,
  hour 0-23, minute and second 0-59). A wider value still prints in full in `PadDecimal`,
  as Go's `%0Nd` does, but then the segment is not 15 characters long.
- Strings.Index: modelled on characters rather than UTF-8 bytes. For the one-byte needle '.'
  the prefix it cuts is the same.
