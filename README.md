# Ignition config migration, version 1 to version 2

A Dafny model of `TranslateFromV1`, the function of Ignition's `config`
package that rewrites a version-1 Ignition configuration into the version-2
schema. The function walks every section of the old configuration and
appends one translated element per input element:

- storage: disks with their partitions, RAID arrays, filesystems and files;
- systemd units with their drop-ins, and networkd units;
- passwd: users and groups.

All but one of these are field-by-field copies. The filesystems are the
exception. In version 1 a filesystem holds its files. In version 2 it is
named `_translate-filesystem-<i>` after its index `i`. Its files move into
one top-level list, and each file names its filesystem. A file's literal
contents become a `data:` URL whose opaque part is `","` followed by the
escaped contents.

## Layout

- `wrappers.dfy` (`Wrappers`): `Option`, for Go pointers that may be nil.
- `seqs.dfy` (`Seqs`): `Map` over sequences and its left-inverse lemma.
- `fmt.dfy` (`Fmt`): the `%d` formatting of a non-negative index, parsing
  back, and their round trip.
- `v1_types.dfy` (`V1Types`), `types.dfy` (`Types`): the two schemas,
  limited to the fields the translation reads or writes.
- `translate.dfy` (`Translate`): `Translated`, the reference definition of
  the output, section by section. `TranslateFromV1` and one method per
  section rebuild it with the source's loops and appends, and are proved
  to compute `Translated`.
- `properties.dfy` (`Properties`): what the output promises. This covers
  lengths and order, copied fields, filesystem names and their uniqueness,
  the layout of the flattened file list, and referential integrity.
- `recover.dfy` (`Recover`): a version-2 to version-1 rebuild. Each
  filesystem gets back the files that name it. The lemma
  `TranslationIsLossless` shows that the rebuild returns the input exactly
  whenever the escaping routine has an inverse.

The escaping routine of the dataurl library is a parameter
`escape: string -> string` of the translation, since its code is not part
of this model. Go's `error` result is `Option<string>`, where nil is `None`.

The code returns a nil error on every path, including the escaping of file
contents, so the model has no failure case. The escaping itself is
`dataurl.EscapeString`, which the model leaves abstract rather than fixing
it to a particular percent-encoding.

## Model

| member | source | states |
|---|---|---|
| `Translate.TranslateFromV1` | Godeps/_workspace/src/github.com/coreos/ignition/config/translate.go:26-163 | the error result is always None; the output is exactly `Translated(old)` and carries version 2.0.0 |
| `Translate.TranslateDisks` | Godeps/_workspace/src/github.com/coreos/ignition/config/translate.go:33-50 | the loops give, in input order, each disk with its partitions copied in order |
| `Translate.TranslateArrays` | Godeps/_workspace/src/github.com/coreos/ignition/config/translate.go:52-64 | the loops give, in input order, each array with its device list copied in order |
| `Translate.TranslateFilesystems` | Godeps/_workspace/src/github.com/coreos/ignition/config/translate.go:66-101 | the loops give the named filesystems (create options only when given) and the flattened file list of the reference definition |
| `Translate.TranslateSystemdUnits` | Godeps/_workspace/src/github.com/coreos/ignition/config/translate.go:103-119 | the loops give, in input order, each unit with its drop-ins copied in order |
| `Translate.TranslateNetworkdUnits` | Godeps/_workspace/src/github.com/coreos/ignition/config/translate.go:121-126 | the loop gives the networkd units copied in input order |
| `Translate.TranslateUsers` | Godeps/_workspace/src/github.com/coreos/ignition/config/translate.go:128-151 | the loop gives the users copied in input order, with a create directive only where the input has one |
| `Translate.TranslateGroups` | Godeps/_workspace/src/github.com/coreos/ignition/config/translate.go:153-160 | the loop gives the groups copied in input order |
| `Translate.FilesystemNameInjective` | Godeps/_workspace/src/github.com/coreos/ignition/config/translate.go:68 | two indices get the same synthetic filesystem name only if they are equal |
| `Fmt.Decimal` | Godeps/_workspace/src/github.com/coreos/ignition/config/translate.go:68 | `%d` of an index is a non-empty string of ASCII digits with no leading zero |
| `Fmt.DecimalRoundTrip` | Godeps/_workspace/src/github.com/coreos/ignition/config/translate.go:68 | reading the decimal string of `n` back gives `n` |
| `Fmt.DecimalInjective` | Godeps/_workspace/src/github.com/coreos/ignition/config/translate.go:68 | distinct indices are formatted differently |
| `Properties.StorageCopiesPreserved` | Godeps/_workspace/src/github.com/coreos/ignition/config/translate.go:33-64 | disks, each disk's partitions, and arrays keep length, order and every field |
| `Properties.UnitsPreserved` | Godeps/_workspace/src/github.com/coreos/ignition/config/translate.go:103-126 | systemd units with their drop-ins, and networkd units, keep length, order and every field |
| `Properties.UsersPreserved` | Godeps/_workspace/src/github.com/coreos/ignition/config/translate.go:128-151 | users keep length, order, name, hash and keys; create is present exactly when the input's is, with all ten fields copied |
| `Properties.GroupsPreserved` | Godeps/_workspace/src/github.com/coreos/ignition/config/translate.go:153-160 | groups keep length, order and every field |
| `Properties.FilesystemsTranslated` | Godeps/_workspace/src/github.com/coreos/ignition/config/translate.go:66-82 | one filesystem per input filesystem, the i-th named `_translate-filesystem-<i>`, all names distinct, always mounted on the input device and format, create present exactly when the input's is, with force and options copied |
| `Properties.TranslatedFilesCount` | Godeps/_workspace/src/github.com/coreos/ignition/config/translate.go:84-100 | the flattened list holds as many files as all input filesystems together |
| `Properties.TranslatedFileAt` | Godeps/_workspace/src/github.com/coreos/ignition/config/translate.go:84-100 | file j of filesystem k lands after the files of filesystems 0..k-1, at offset j, and names filesystem k |
| `Properties.TranslatedFilesLayout` | Godeps/_workspace/src/github.com/coreos/ignition/config/translate.go:84-100 | the total count and every file's position together: files appear grouped by filesystem, in filesystem order and then file order |
| `Properties.TranslatedFileOrigin` | Godeps/_workspace/src/github.com/coreos/ignition/config/translate.go:84-100 | every output file is the translation of some input file, placed on that file's filesystem |
| `Properties.FilesTranslated` | Godeps/_workspace/src/github.com/coreos/ignition/config/translate.go:84-99 | every output file names its filesystem. Its URL has scheme "data" and opaque part "," + escape(contents). Path, mode and owner ids are copied |
| `Properties.FileReferencesResolve` | Godeps/_workspace/src/github.com/coreos/ignition/config/translate.go:86 | every output file's filesystem name matches exactly one output filesystem |
| `Recover.FilesAvoidLaterNames` | Godeps/_workspace/src/github.com/coreos/ignition/config/translate.go:84-100 | files of filesystems 0..n-1 never name a filesystem at index n or later |
| `Recover.FilesOnTranslated` | Godeps/_workspace/src/github.com/coreos/ignition/config/translate.go:84-100 | selecting the output files that name filesystem k gives exactly that filesystem's files, in order |
| `Recover.RecoverDiskInverse` | Godeps/_workspace/src/github.com/coreos/ignition/config/translate.go:33-50 | a translated disk converts back to the input disk |
| `Recover.RecoverUnitInverse` | Godeps/_workspace/src/github.com/coreos/ignition/config/translate.go:103-119 | a translated systemd unit converts back to the input unit |
| `Recover.RecoverFileInverse` | Godeps/_workspace/src/github.com/coreos/ignition/config/translate.go:85-97 | if unescape undoes escape, a translated file converts back to the input file, contents included |
| `Recover.RecoverFilesystemInverse` | Godeps/_workspace/src/github.com/coreos/ignition/config/translate.go:66-100 | if unescape undoes escape, filesystem k with the files that name it converts back to input filesystem k |
| `Recover.TranslationIsLossless` | Godeps/_workspace/src/github.com/coreos/ignition/config/translate.go:26-163 | if unescape undoes escape, rebuilding version 1 from the output gives back the input exactly |

## Left out

- `index/write.go` (`UpdateIndex`, `crcSum`, `crcEq`): the object-store index publisher. It is HTTP, Google Cloud Storage, HTML templating and CRC-32C I/O. The migration does not use it.
- `dataurl.EscapeString`: a library routine whose code is not part of this model. It is the parameter `escape`. No decoding law is proved about it. `TranslationIsLossless` assumes that some `unescape` undoes it.
- `Recover.TranslationIsLossless`: proves the round trip only under the hypothesis `forall s :: unescape(escape(s)) == s`, because the library's escaping is not modelled.
- Go slice and pointer sharing: `SSHAuthorizedKeys`, `Groups`, `Options` and the `Uid`/`Gid` pointers are shared between input and output in Go. The model copies values, so it does not capture that aliasing.
- Go's nil versus empty slices: appending to a nil slice leaves it nil when nothing is appended. The model has only the empty sequence. The difference matters only to a serialiser.
- Fields the translation neither reads nor writes are not in the datatypes. These are the v1 `Version`, the v2 `Ignition.Config`, `Filesystem.Path`, the contents' compression and verification, the other URL parts, and the version's pre-release and metadata.
- Integer widths: partition numbers, sizes, modes and ids are only copied, so they are `int`/`nat` without Go's widths. The filesystem index formatted by `%d` is an unbounded `nat`.
- Serialisation and validation of either schema: not part of the migration.
