# Verification of cloud-boot's cache disk, OCI pushes and module packer

A Dafny 4.11 model of the three parts of the repository that carry state, and proofs about them.

1. **The cache disk** (`scripts/make-cache-disk.sh`). The layout arithmetic of the shell, the protective MBR, the two
   GPT headers with their CRC-32 fields, the entry arrays, the in-place writes, the check that leaves an existing disk
   alone, and every sequence of runs and guest writes. The standards are sections 5.2.3, 5.3.2 and 5.3.3 and appendix A
   of the UEFI Specification, and section 8 of RFC 1952 for CRC-32 (here a bit-step function on `bv32`).
2. **The pushes** (`push artifact`, `push index`, `push multi`) against a content-addressed registry. Any request may be
   refused, or be served with its reply lost, and any file may be unreadable.
3. **The module packer** (`push modpack`), as the sequence of cpio records it writes, and what unpacking them gives.

Everything that the source changes step by step is a method on arrays or on a class (`DiskFile`, `FlagList`, `Server`,
`Writer`), proved equal to a specification function (`RunScript`, `Run`, `RunIndex`, `RunMulti`, `Archive`). The theorems
are about those functions. For each of them one theorem says what a run leaves in terms of what it is given, and of
constants written out: `CreatedDisk.CreatedExactly`, `Delivered.ArtifactDelivered`, `DeliveredIndexes.IndexDelivered`,
`DeliveredMulti.PlatformDelivered` and `PackFacts.ArchiveRebuildsTree`; and one says when it succeeds. To check all of
it, run `dafny verify dfyconfig.toml`.

## The main theorems

- *Damage.* Whatever the script is given, a burst of up to four bytes in the header or in the entries of one copy of
  the GPT makes that copy invalid, while the other copy still decodes to everything that was put in
  (`Redundancy.PrimaryDamage`, `Redundancy.SecondaryDamage`). The argument is `ShiftRegister.RunDetectsBurst`, for
  messages of any length: 92 bytes or 16384. By the CRC alone there are exactly three exceptions, below.
- *Runs.* A run that creates the disk leaves just the one it was asked for: its size, the formatted image as its ESP, the
  old bytes of the file in front of that, and both copies of the GPT saying the GUIDs it drew
  (`CreatedDisk.CreatedExactly`). Every sequence of further runs and of guest writes to the ESP leaves everything else
  byte for byte as it was, valid and recognised (`Runs.CreatedDiskLivesOn`, `CreatedDisk.StaysAsAsked`). Running twice
  is running once (`Runs.RunningTwiceIsRunningOnce`). The size given to a run on a recognised disk does not matter: the
  script exits before it reads it (`CacheDisk.ValidRun`).
- *In place.* The truncation and the six writes leave one pure image over any old contents, in any order
  (`DiskImage.WritesMakeImage`, `DiskImage.WritesInAnyOrder`), and the method that performs them is that function
  (`CacheDisk.MakeCacheDisk`).
- *Artifacts.* After a successful `push artifact` a client finds the manifest of its flags, and in its layers exactly the
  files that the flags named (`Delivered.ArtifactDelivered`). The push succeeds **if and only if** its flags are in
  order, its files can be read, its reference is a tag or fits, and every request was served
  (`Delivered.PushSucceedsExactly`; `DeliveredIndexes.IndexSucceedsExactly` and `DeliveredMulti.MultiSucceedsExactly` for
  the other two).
- *The index.* After a successful `push multi` the index has one entry per platform in sorted order, and all entries
  are right **if and only if** no two platforms share an architecture (`MultiFacts.IndexIsRightExactly`). Each right
  entry gives back exactly the files of its platform (`MultiFacts.EntriesResolve`), and so does the tag with a dash and
  the architecture behind it (`DeliveredMulti.PlatformDelivered`).
- *Faults.* Nothing stored ever refers to something that is not stored, with another digest or of another size
  (`Pushes.RegistryStaysClosed`, `Pushes.HistoryIsFollowable`). The bare tag is old or complete at every moment
  (`MultiFacts.AllOrNothing`). A run that failed, on any request or on any file that could not be read, followed by a
  successful one equals the successful one alone (`Resume.ResumeConverges`).
- *The archive.* Unpacking it never gets stuck and gives the tree without its special files, with its nine permission
  bits, and nothing else (`PackFacts.ArchiveRebuildsTree`); it can be unpacked **if and only if** the name it takes from
  the source is neither `.` nor `..` (`PackFacts.UnpacksExactly`).

## What the code does not promise

- The header CRC does not see every burst of four bytes, because a burst can cover the end of the CRC field and the
  start of the Reserved field behind it, and change one to fit the other. For every header with an empty Reserved field
  and every window of up to four bytes, damage in that window can pass the signature, size, MyLBA and CRC checks of
  section 5.3.2 **if and only if** the window is four bytes long and reaches over that point: offsets 17, 18 and 19
  (`Redundancy.HidesExactlyWhenBlind`). `CopyStrictlyValid` also requires the Reserved field to be zero, as the header
  table of that section does, and sees all of it. So `PrimaryDamage` gives the CRC-only verdict for every burst outside
  those three windows, and the strict verdict for all.
- The script promises to leave a GPT "with a partition named" so alone (its lines 36-38), and looks at the first entry
  of the primary copy only, at all 72 bytes of its name field. A disk whose primary copy is valid is left alone **if and
  only if** that entry is used and the field decodes to the name, but for NULs anywhere and newlines at the end
  (`NamedDisks.LeftAloneExactly`). Section 5.3.3 ends the name at the first NUL. So a disk that carries the partition in
  its first slot is left alone **if and only if** what is behind the NUL decodes, to NULs and newlines
  (`NamedDisks.FirstSlotIsKeptExactly`). Three families of disks, of every size, carry the partition and are overwritten:
  in the second slot (`NamedDisks.SecondSlotIsOverwritten`) and in the first with a letter behind the NUL
  (`NamedDisks.FirstSlotIsOverwritten`), both with two valid copies; and the script's own disk once the primary
  signature is damaged, though its secondary copy still says everything (`NamedDisks.UnsignedDiskIsOverwritten`).
- The script checks no CRC either. A recognised file that is not a valid disk is never repaired, so after a completed run
  the file is a cache disk **if and only if** it already was one or was not recognised before
  (`Runs.FirstRunMakesDiskExactly`, `Recogniser.RecognisedThoughInvalid`, `Runs.InvalidButRecognisedStays`).
- The EndingCHS field of the protective MBR is always `FF FF FF`, which section 5.2.3 keeps for a last block that has no
  cylinder-head-sector address. So the MBR conforms **if and only if** the disk is larger than the geometry can count,
  but for one size (`EndingChs.ConformsExactly`): with 255 heads and 63 sectors from 8033 MiB on, so not at the default
  size (`EndingChs.DefaultDoesNotConform`). Everything else in the MBR is as the section asks
  (`Gpt.WrittenMbrProtects`).
- The shell arithmetic is exact if and only if `SIZE_MiB` is below 2^43 (`Layout.PlanIsExact`).
- Two platforms with one architecture share a tag, and the entry of the earlier one then names the artifact of the later
  (`MultiFacts.CollidingEntryIsWrong`). Kernels for `linux/amd64` and `windows/amd64` are enough
  (`MultiFacts.LinuxAndWindowsMisnamed`).
- `push index` keeps every index beside the manifests that it names **if and only if** the target repository already has
  all the manifests that the run is given, wherever they were read from (`ImageIndex.StaysLocalExactly`). It fails for
  a manifest that only another repository has (`ImageIndex.AcrossRepositoriesDangles`), and never within one repository
  (`ImageIndex.OneRepositoryStaysLocal`).
- `push modpack` checks the source with `os.Stat`, which follows a link, and walks it with `WalkDir`, which does not. A
  finished archive holds the directory that was checked **if and only if** the source is not itself a link for `lstat`
  (`PackFacts.HoldsWhatWasSeenExactly`); of a link only the link is packed (`PackFacts.LinkedSourceLosesItsTree`).
  `--src .` writes `lib/modules` twice, which an unpacker that wants each path to be absent refuses.

## Parameters and assumptions

The GUIDs a run draws and the FAT image that `mformat` and `mmd` make are inputs of a run (`CacheDisk.Input`); no image
means that the tools failed. What `os.Stat` and `lstat` see of a packed source are two trees, equal unless the source is
a link (`Modpack.SameSource`). Of the pushes, the local files, the encodings, the digest and the parser of references
are fields of `Registry.Env`. What is assumed of them is stated where it is used: digests and encodings are injective and a
digest holds a colon (`GoodDigests`), the parser inverts `<host>/<repo>:<tag>` on plain parts (`ParsesBack`), configs of
different platforms differ (`GoodConfigs`). The registry keeps a manifest under its digest as well as under its tag, as
the OCI Distribution Specification asks under "Pushing Manifests", and `lenient` is the fallback to the last manifest
that `fakereg` has. `MultiFacts.Ready` says what `push multi` must be given: a plain tag, and architectures without
`/`, `:` and `@`, so that they can end a tag.

## Model

| member | source | states |
|---|---|---|
| `Layout.PlanIsExact` | scripts/make-cache-disk.sh:82-86 | for every positive size, the wrapping 64-bit shell arithmetic gives the intended plan if and only if the size is below 2^43 MiB |
| `Layout.ValidSizeExactly` | scripts/make-cache-disk.sh:82-86 | the sizes from 2 to 2^43 - 1 are exactly those for which that plan is the intended one and the ESP is not empty |
| `Layout.WrapIs` | scripts/make-cache-disk.sh:82-86 | a wrapped number is in the signed 64-bit range and differs by a multiple of 2^64 |
| `Layout.QuotientIs` | scripts/make-cache-disk.sh:84 | the remainder of a shell division is smaller than the divisor and has the sign of the dividend |
| `Layout.ShellWellLaidOut` | scripts/make-cache-disk.sh:82-118 | for every valid size the seven regions of the shell's plan are pairwise disjoint and tile the disk exactly, and the ESP ends with LAST_USABLE |
| `Layout.ChainedTiles` | scripts/make-cache-disk.sh:112-118 | regions that each start where the one before ends cover the disk exactly and are pairwise disjoint |
| `Layout.MbrSaturatesAbove2TiB` | scripts/make-cache-disk.sh:162 | the block count of the protective MBR is the true one if and only if the disk is no larger than 2 TiB |
| `Bytes.UnpackPack` | scripts/make-cache-disk.sh:125-149 | unpacking a little-endian field gives the packed number back whenever it fits |
| `Bytes.PackUnpack` | scripts/make-cache-disk.sh:65 | packing an unpacked field gives the same bytes back |
| `Codecs.DecodeEncode` | scripts/make-cache-disk.sh:69-128 | decoding the UTF-16LE encoding of any text of scalar values gives the text back, surrogate pairs included |
| `Codecs.EncodeDecode` | scripts/make-cache-disk.sh:69 | whatever decodes is the encoding of what it decodes to |
| `Codecs.BytesLeIsEfiGuid` | scripts/make-cache-disk.sh:123-124 | `bytes_le` read as the EFI_GUID of appendix A is the GUID that the text form names |
| `Codecs.FromBytesLeInverts` | scripts/make-cache-disk.sh:144 | reading `bytes_le` gives the GUID back |
| `Codecs.BytesLeInverts` | scripts/make-cache-disk.sh:123-144 | and writing what was read gives the bytes back |
| `ShiftRegister.RunInjective` | scripts/make-cache-disk.sh:131 | two registers that differ still differ after any message |
| `ShiftRegister.RunDetectsBurst` | scripts/make-cache-disk.sh:131-149 | messages of any length that agree outside four adjacent bytes and leave the same register are equal |
| `Crc32.RegisterLawful` | scripts/make-cache-disk.sh:131 | the CRC-32 bit step is a bijection and has the other laws that the burst theorem needs |
| `Crc32.ChecksumOfA` | scripts/make-cache-disk.sh:131 | the modelled CRC-32 gives the published checksum of `a`: polynomial, bit order, start and end values |
| `Crc32.BurstDetected` | scripts/make-cache-disk.sh:131-149 | every change confined to four adjacent bytes of a message changes its CRC-32 |
| `Crc32.FieldInjective` | scripts/make-cache-disk.sh:148-149 | different checksums have different little-endian fields |
| `LinearRegister.RunLinear` | scripts/make-cache-disk.sh:149 | for a linear register a difference runs through a message by itself, as if through zeros |
| `CrcTail.TwoBytesShow` | scripts/make-cache-disk.sh:139-149 | a nonzero difference in two bytes of the CRC-32 register, carried through the rest of a header, is nonzero in the three low bytes |
| `BlindSpot.HeaderChecksumsDiffer` | scripts/make-cache-disk.sh:138-149 | the CRCs of headers that differ in the first three Reserved bytes differ by that difference carried through the remaining 72 bytes |
| `BlindSpot.BothValid` | scripts/make-cache-disk.sh:138-149 | two valid headers that differ within three bytes around the end of the CRC field are equal |
| `BlindSpot.DamageUnseen` | scripts/make-cache-disk.sh:138-149 | every valid header with an empty Reserved field has damage in each of the four-byte windows from 17, 18 and 19 that its CRC fits |
| `GptBuilder.MakeHdr` | scripts/make-cache-disk.sh:133-150 | the byte array filled slice by slice, its CRC slot zeroed and then filled, is the header of the specification function |
| `GptBuilder.MakeEntry` | scripts/make-cache-disk.sh:122-129 | the partition entry filled slice by slice |
| `GptBuilder.MakeEntries` | scripts/make-cache-disk.sh:121-130 | the entry array with the entry at its front |
| `GptBuilder.MakeMbr` | scripts/make-cache-disk.sh:156-163 | the protective MBR filled byte by byte and slice by slice |
| `Gpt.WrittenMbrProtects` | scripts/make-cache-disk.sh:155-163 | the written MBR, read at the offsets of section 5.2.3 but for EndingCHS, has one protective record from block 1 over the whole disk, saturating |
| `EndingChs.AddressNamesBlock` | scripts/make-cache-disk.sh:155-163 | the cylinder, head and sector of an address, unpacked, count up to the block it is of |
| `EndingChs.ConformsExactly` | scripts/make-cache-disk.sh:155-163 | with EndingCHS it conforms, for every geometry, if and only if the last block has no address, but for the one size whose last address is all ones |
| `EndingChs.ConformsFrom8033MiB` | scripts/make-cache-disk.sh:54-163 | with 255 heads and 63 sectors it conforms if and only if the size is at least 8033 MiB |
| `EndingChs.DefaultDoesNotConform` | scripts/make-cache-disk.sh:54-163 | the disk of the default size does not conform with that geometry |
| `Gpt.WrittenHeaderValid` | scripts/make-cache-disk.sh:133-150 | a written header passes the checks of section 5.3.2 in the block it names, and its fields read back |
| `Gpt.EntryReadsBack` | scripts/make-cache-disk.sh:120-129 | the written entry decodes to the ESP type, the drawn GUID, the first and last block, no attributes and the name |
| `Writes.AnyOrder` | scripts/make-cache-disk.sh:165-179 | writes that do not overlap leave the same bytes in any other order, repeated or not |
| `DiskImage.WritesMakeImage` | scripts/make-cache-disk.sh:165-179 | the writes over any old contents leave the image around the old bytes of LBA 34..2047: no other stale byte survives |
| `DiskImage.WritesInAnyOrder` | scripts/make-cache-disk.sh:165-179 | so do the same writes in any other order |
| `DiskImage.ImageHolds` | scripts/make-cache-disk.sh:165-179 | where each structure is in the image |
| `CacheDisk.DiskFile.Truncate` | scripts/make-cache-disk.sh:98 | the file is cut or extended with zeros, and created when absent |
| `CacheDisk.DiskFile.Put` | scripts/make-cache-disk.sh:165-175 | a write at the current position, growing the file when needed |
| `CacheDisk.DiskFile.WriteAt` | scripts/make-cache-disk.sh:166-175 | a seek and a write inside the file are one more write of the list |
| `CacheDisk.BuildPieces` | scripts/make-cache-disk.sh:120-163 | the byte arrays of the Python part are the pieces of the image, with one entry CRC in both headers |
| `CacheDisk.WritePieces` | scripts/make-cache-disk.sh:165-179 | the six writes in the order of the script |
| `CacheDisk.MakeCacheDisk` | scripts/make-cache-disk.sh:56-179 | the whole script in place equals the pure function of the old file and the input, exit included, of which the next three rows speak |
| `CreatedDisk.ExitsExactly` | scripts/make-cache-disk.sh:75-98 | the run leaves a recognised file alone, and every file when the formatting fails, and creates a disk otherwise and only then |
| `CreatedDisk.CreatedExactly` | scripts/make-cache-disk.sh:82-179 | a created disk is `SIZE_MiB` large, has the formatted image from block 2048 to 33 blocks before its end, the old bytes of the file or zeros in front of it, two valid copies of the GPT that say the drawn GUIDs, the ESP type and the name, and zeros behind the headers and in front of the MBR record |
| `CreatedDisk.StaysAsAsked` | scripts/make-cache-disk.sh:56-179 | later runs, with whatever input, and guest writes change nothing of that but the ESP |
| `RoundTrip.ImageReadsBack` | scripts/make-cache-disk.sh:120-175 | both copies of every image are strictly valid and decode to the parameters, each naming the other and its own entries |
| `Redundancy.HeaderDamageDetected` | scripts/make-cache-disk.sh:133-150 | no burst of up to four bytes leaves a header valid, except in a four-byte window over the end of the CRC field |
| `Redundancy.HidesExactlyWhenBlind` | scripts/make-cache-disk.sh:133-150 | in every header with an empty Reserved field, damage in a window of up to four bytes can pass if and only if the window is one of those |
| `Redundancy.HeaderDamageDetectedStrictly` | scripts/make-cache-disk.sh:133-150 | with the Reserved field checked no burst of up to four bytes leaves a header valid |
| `Redundancy.PrimaryDamage` | scripts/make-cache-disk.sh:121-153 | a burst in the primary header or entries makes the primary copy invalid, and the secondary copy still says all that was put in |
| `Redundancy.SecondaryDamage` | scripts/make-cache-disk.sh:121-153 | the same for the secondary copy |
| `Recogniser.RecogniserFootprint` | scripts/make-cache-disk.sh:59-75 | for all files, short ones included, the answer depends only on the signature, the entry-array field and the 128 bytes it points to |
| `Recogniser.RecognisedExactly` | scripts/make-cache-disk.sh:59-75 | a file is recognised if and only if the printed name is the partition name but for NULs and final newlines |
| `Recogniser.StripNulsIs` | scripts/make-cache-disk.sh:69 | `rstrip` takes NULs from the end, and all of them |
| `Recogniser.PrintedNameIs` | scripts/make-cache-disk.sh:62-70 | for a disk with a valid primary GPT all 72 bytes of the name field of its first partition are printed, decoded, but for final NULs, if the partition is used and the field decodes |
| `Recogniser.RecognisedWhenAccepted` | scripts/make-cache-disk.sh:59-75 | a disk with a valid primary GPT is recognised if and only if its first partition is used and its name field decodes to the name, but for NULs and final newlines |
| `NamedDisks.LeftAloneExactly` | scripts/make-cache-disk.sh:36-80 | a disk with a valid primary GPT, whatever the size of its entries, is left alone under just that condition on the 72 bytes of the name field |
| `NamedDisks.FirstSlotIsKeptExactly` | scripts/make-cache-disk.sh:36-80 | a disk that carries the partition in its first slot, by its NUL-terminated name, is left alone if and only if what is behind the NUL decodes to NULs and newlines |
| `NamedDisks.MovedDiskIsValid` | scripts/make-cache-disk.sh:36-38 | a disk whose first entry is unused and whose second is the partition, both copies valid, exists for every size |
| `NamedDisks.SecondSlotIsOverwritten` | scripts/make-cache-disk.sh:36-80 | that disk carries the partition and is overwritten |
| `NamedDisks.TailedDiskIsValid` | scripts/make-cache-disk.sh:36-38 | a disk with the partition in its first slot and any 38 bytes behind the NUL of its name, both copies valid, exists for every size |
| `NamedDisks.FirstSlotIsOverwritten` | scripts/make-cache-disk.sh:36-80 | with a letter right behind the NUL it carries the partition and is overwritten |
| `NamedDisks.UnsignedDiskIsOverwritten` | scripts/make-cache-disk.sh:59-80 | a disk of the script with damage to the primary signature still says everything in its secondary copy, and is overwritten |
| `Recogniser.ImageIsRecognised` | scripts/make-cache-disk.sh:56-75 | every disk that the script makes is recognised |
| `Recogniser.RecognisedThoughInvalid` | scripts/make-cache-disk.sh:59-75 | damage to one byte that the recogniser does not read makes the primary copy invalid, and the disk is still recognised |
| `Runs.CreatedDiskLivesOn` | scripts/make-cache-disk.sh:56-179 | after a creating run over any file, every sequence of runs and guest writes leaves all bytes outside the ESP as they were, valid and recognised |
| `Runs.FirstRunMakesDiskExactly` | scripts/make-cache-disk.sh:56-179 | after a completed run the file is a cache disk if and only if it already was or was not recognised before |
| `Runs.RunningTwiceIsRunningOnce` | scripts/make-cache-disk.sh:56-80 | a second run with any input, its size included, leaves what the first one left |
| `Runs.InvalidButRecognisedStays` | scripts/make-cache-disk.sh:75-78 | no sequence of runs changes a recognised file, valid or not |
| `Text.CutParts` | cmd/cloud-boot/internal/cliutil/cliutil.go:15 | a string is cut if and only if it has the separator, and then it is its two parts joined at the first one |
| `Text.LessExactly` | cmd/cloud-boot/push/multi/cmd.go:181 | a string comes before another if and only if it ends, or has the smaller character, where they first differ |
| `Artifact.ParsePlatformExactly` | cmd/cloud-boot/internal/cliutil/cliutil.go:14-20 | a platform parses to a system and an architecture if and only if it is their join by a slash, the system has no slash and neither is empty |
| `FlagLists.ParseRender` | cmd/cloud-boot/push/multi/cmd.go:40-47 | a flag parses to an entry if and only if the entry is well formed and renders to the flag |
| `FlagLists.FlagList.Set` | cmd/cloud-boot/push/multi/cmd.go:40-47 | appends the parsed entry, or fails and changes nothing |
| `FlagLists.FlagList.Replace` | cmd/cloud-boot/push/multi/cmd.go:50-58 | leaves exactly the decoded prefix up to the first bad value, and succeeds when there is none |
| `FlagLists.FlagList.GetSlice` | cmd/cloud-boot/push/multi/cmd.go:59-65 | the rendered entries in order |
| `FlagLists.SliceOfReplaced` | cmd/cloud-boot/push/index/cmd.go:39-54 | after a successful `Replace`, `GetSlice` gives the very values back, `=` in them or not |
| `FlagLists.ReplacedBySlice` | cmd/cloud-boot/push/index/cmd.go:29-54 | `Replace` with the `GetSlice` of a list built by `Set` succeeds and rebuilds the list |
| `FlagLists.FindPath` | cmd/cloud-boot/push/multi/cmd.go:67-75 | the search loop gives the path of the first entry for the platform, or nothing |
| `FlagLists.FirstEntryWins` | cmd/cloud-boot/push/multi/cmd.go:67-75 | of several entries for a platform the first one wins |
| `FlagLists.PathFound` | cmd/cloud-boot/push/multi/cmd.go:67-75 | a path is found if and only if the list mentions the platform |
| `FlagLists.UniquePlatforms` | cmd/cloud-boot/push/multi/cmd.go:168-183 | the loop with its set of seen platforms, and the sort, give a strictly sorted list of exactly the platforms mentioned |
| `FlagLists.UniqueIsPlatforms` | cmd/cloud-boot/push/multi/cmd.go:168-183 | being sorted with those members leaves one possible result |
| `FlagLists.PlatformsExactly` | cmd/cloud-boot/push/multi/cmd.go:121-183 | the platforms of a run are the strictly sorted union of the three lists |
| `Registry.Server.UploadBlob` | cmd/cloud-boot/internal/fakereg/fakereg.go:55-60 | an upload stores the blob under its digest, or is refused and stores nothing |
| `Registry.Server.PutManifest` | cmd/cloud-boot/internal/fakereg/fakereg.go:61-67 | a put stores the manifest under its reference and its digest and as the last one, or is refused |
| `Registry.Server.GetManifest` | cmd/cloud-boot/internal/fakereg/fakereg.go:68-77 | a read changes nothing and gives the manifest under the reference, or the last one when the registry is lenient |
| `Registry.IssuePartway` | cmd/cloud-boot/internal/fakereg/fakereg.go:97-122 | whichever request of a sequence fails, the registry holds exactly the effects of a prefix at every moment |
| `Registry.IssueAll` | cmd/cloud-boot/internal/fakereg/fakereg.go:51-67 | on success it holds the effects of all |
| `Closure.EffectKeepsClosed` | cmd/cloud-boot/internal/fakereg/fakereg.go:51-67 | a request whose references are stored keeps the registry referentially closed |
| `Closure.IssueKeepsClosed` | cmd/cloud-boot/push/artifact/cmd.go:77-142 | a sequence of such requests keeps it closed at every moment, whichever fails |
| `Delivered.FaultsMean` | cmd/cloud-boot/internal/fakereg/fakereg.go:51-122 | a refused request changes nothing, one whose reply is lost has its effect and fails, only a served one succeeds, and each is one more moment of the history |
| `Delivered.LookupAfterPut` | cmd/cloud-boot/internal/fakereg/fakereg.go:61-77 | what a registry answers after a put: the manifest under its reference and its digest, for unknown references nothing or, when lenient, that manifest, and everything else as before |
| `Delivered.IssueSucceedsExactly` | cmd/cloud-boot/internal/fakereg/fakereg.go:51-77 | requests succeed if and only if all are accepted and all that were made were served |
| `Artifact.PushFile` | cmd/cloud-boot/push/artifact/cmd.go:149-167 | one file read and uploaded: its descriptor, or the error of the read or of the upload |
| `Artifact.PushLayers` | cmd/cloud-boot/push/artifact/cmd.go:89-130 | the calls of `add` one after another push exactly the inputs that are set, and stop at the first error |
| `Artifact.Push` | cmd/cloud-boot/push/artifact/cmd.go:60-144 | the whole command on the server equals the specified run, errors and registry included, of which the next three rows speak |
| `Delivered.RefusedExactly` | cmd/cloud-boot/push/artifact/cmd.go:61-153 | which error a push ends in: without a platform, with a bad one, without any input and with a bad reference before any request; the first unreadable file; a request that was not served |
| `Delivered.PushSucceedsExactly` | cmd/cloud-boot/push/artifact/cmd.go:60-144 | a push succeeds if and only if its flags are in order, its files readable, its reference fits and all its requests were served, and its manifest is then the one spelled out flag by flag, titles and base names included |
| `Delivered.ArtifactDelivered` | cmd/cloud-boot/push/artifact/cmd.go:60-167 | that manifest is under the reference and the digest in the repository of the reference, its config is that of the platform, and for each of the seven flags its layer holds the named file or the command line, and is absent when the flag is |
| `ArtifactFacts.InputsInOrder` | cmd/cloud-boot/push/artifact/cmd.go:101-130 | the layers are exactly the inputs that are set, each once, as a subsequence of the fixed order |
| `ArtifactFacts.RunKeepsClosed` | cmd/cloud-boot/push/artifact/cmd.go:77-142 | a push keeps the registry closed at every moment, whichever request fails |
| `ArtifactFacts.ArtifactReadsBack` | cmd/cloud-boot/push/artifact/cmd.go:60-144 | the pushed manifest, by tag and by digest, gives back for every input whether it was set and its exact bytes |
| `ImageIndex.Assemble` | cmd/cloud-boot/push/index/cmd.go:76-115 | the loop of descriptions and the one put on the server equal the specified run, of which the next two rows speak |
| `DeliveredIndexes.IndexSucceedsExactly` | cmd/cloud-boot/push/index/cmd.go:76-112 | a run succeeds if and only if it has entries that can be described, its reference fits and all its requests were served; otherwise its error is that of the first entry that cannot, and without entries or with a bad reference it makes no request |
| `DeliveredIndexes.IndexDelivered` | cmd/cloud-boot/push/index/cmd.go:86-112 | the index is under its reference and its digest, and each entry has the system and the architecture it was given and the digest, the size and the media type of the manifest that its reference named |
| `ImageIndex.RunIndexKeepsClosed` | cmd/cloud-boot/push/index/cmd.go:86-112 | an index push keeps the registry closed at every moment, whichever request fails |
| `ImageIndex.OneRepositoryStaysLocal` | cmd/cloud-boot/push/index/cmd.go:86-112 | within one repository every index keeps its manifests beside it |
| `ImageIndex.StaysLocalExactly` | cmd/cloud-boot/push/index/cmd.go:86-112 | a run that succeeds keeps every index beside its manifests if and only if all it was given names what the target repository has (or the new index itself), both known before the run |
| `ImageIndex.AcrossRepositoriesDangles` | cmd/cloud-boot/push/index/cmd.go:92-109 | a manifest that the target repository lacks makes the new index dangle there |
| `Multi.PushMulti` | cmd/cloud-boot/push/multi/cmd.go:120-150 | the whole command on the server equals the specified run, flag list and stops at errors included |
| `DeliveredMulti.DerivedIs` | cmd/cloud-boot/push/multi/cmd.go:152-166 | the derived reference, spelled out: host, slash, repository, colon, tag, dash, architecture |
| `DeliveredMulti.TagForAmd64` | cmd/cloud-boot/push/multi/cmd.go:152-166 | for `localhost:5000/boot/linux:6.6` and `linux/amd64` it ends in `6.6-amd64` |
| `MultiFacts.DerivedParses` | cmd/cloud-boot/push/multi/cmd.go:152-166 | the derived reference parses back to the same repository and the tag with the architecture appended |
| `MultiFacts.TagHoldsLast` | cmd/cloud-boot/push/multi/cmd.go:130-148 | after the pushes a derived tag holds the artifact of the last platform with that architecture |
| `MultiFacts.RunIsPartway` | cmd/cloud-boot/push/multi/cmd.go:120-150 | every run, failing anywhere, is a prefix of one fixed list of requests that ends in the index put, and on success all of it |
| `MultiFacts.IndexIsRightExactly` | cmd/cloud-boot/push/multi/cmd.go:120-150 | the published index has one entry per platform in sorted order, all naming the artifact of their own platform if and only if the architectures are distinct |
| `MultiFacts.CollidingEntryIsWrong` | cmd/cloud-boot/push/multi/cmd.go:152-166 | the entry of the earlier of two platforms with one architecture names the artifact of another platform |
| `MultiFacts.LinuxAndWindowsCollide` | cmd/cloud-boot/push/multi/cmd.go:152-166 | kernels for `linux/amd64` and `windows/amd64` collide, whatever else the run is given |
| `MultiFacts.LinuxAndWindowsMisnamed` | cmd/cloud-boot/push/multi/cmd.go:120-166 | after every successful run on them some entry of the published index is wrong |
| `MultiFacts.EntriesResolve` | cmd/cloud-boot/push/multi/cmd.go:130-149 | with distinct architectures every entry resolves to a manifest that gives back the files of its platform and the shared command line, and the derived tag is still that manifest |
| `DeliveredMulti.PlatformDelivered` | cmd/cloud-boot/push/multi/cmd.go:120-166 | with distinct architectures the tag with a dash and the architecture, the digest, and the entry of the index all give the manifest of the first path of each list for the platform and the shared command line, and its layers hold those files |
| `DeliveredMulti.PlatformsOfRunExactly` | cmd/cloud-boot/push/multi/cmd.go:121-183 | the platforms of a run are those that one of its three lists mentions, each once, in order |
| `DeliveredMulti.MultiRefuses` | cmd/cloud-boot/push/multi/cmd.go:121-127 | without any entry, or with a bad reference, a run makes no request |
| `DeliveredMulti.PushAllNeedsPlatforms` | cmd/cloud-boot/push/multi/cmd.go:130-134 | no run succeeds on a platform that does not parse |
| `DeliveredMulti.MultiSucceedsExactly` | cmd/cloud-boot/push/multi/cmd.go:120-150 | otherwise a run on a plain tag succeeds if and only if it has a platform, every file named for one can be read and all its requests were served |
| `MultiFacts.AllOrNothing` | cmd/cloud-boot/push/multi/cmd.go:129-149 | at every moment of every run the bare tag is the old one, or the complete index with every manifest it names stored |
| `Resume.CompleteOpsMore` | cmd/cloud-boot/push/multi/cmd.go:129-149 | the requests of a run that cannot read some files are the first requests of the run that reads them all |
| `Resume.ResumeConverges` | cmd/cloud-boot/push/multi/cmd.go:129-149 | a run that fails at any request or at any unreadable file, and then a successful one with the same options and all the files, leave exactly what the successful one alone leaves |
| `Resume.MissingFileFails` | cmd/cloud-boot/push/artifact/cmd.go:149-153 | a run that cannot read one of its files fails, whatever the registry does |
| `Resume.RepetitionChangesNothing` | cmd/cloud-boot/push/multi/cmd.go:129-149 | repeating a successful run changes nothing |
| `MultiFacts.FlagOrderIrrelevant` | cmd/cloud-boot/push/multi/cmd.go:120-183 | permuting flag lists without repeats changes no request and no result |
| `Pushes.RegistryStaysClosed` | cmd/cloud-boot/push/index/cmd.go:86-112 | every sequence of artifact, index and multi pushes keeps a closed registry closed after every request, whichever requests fail |
| `Pushes.EmptyRegistryClosed` | cmd/cloud-boot/internal/fakereg/fakereg.go:33-38 | so every history of an empty registry is closed throughout |
| `Pushes.HistoryIsFollowable` | cmd/cloud-boot/push/index/cmd.go:86-112 | in every history of an empty registry, after every request, each config and layer of a stored manifest is a stored blob with the digest and the size it declares, and each entry of a stored index a stored manifest with the digest, the size and the media type it declares |
| `Paths.ComponentsOfJoin` | cmd/cloud-boot/push/modpack/pack.go:28 | splitting a joined path gives its parts back |
| `Paths.JoinOfProper` | cmd/cloud-boot/push/modpack/pack.go:47 | `path.Join` of paths of proper parts joins the parts, with nothing for cleaning to change |
| `Paths.BaseIsLastPart` | cmd/cloud-boot/push/artifact/cmd.go:164 | the base of a path is what stands behind its last slash but for the slashes at its end |
| `Paths.JoinIsEmptyExactly` | cmd/cloud-boot/push/modpack/pack.go:28-47 | `path.Join` gives nothing if and only if it is given nothing |
| `PackFacts.ReleaseIsLastPart` | cmd/cloud-boot/push/modpack/pack.go:27 | so is the release, and it is `.` when the source is all slashes |
| `PackFacts.ReleaseIsOneName` | cmd/cloud-boot/push/modpack/pack.go:27 | whatever the source is called, the release is a proper name, `.` or `..` |
| `PackFacts.RootIs` | cmd/cloud-boot/push/modpack/pack.go:27-28 | the archive is rooted at `lib/modules/<release>`; `.` and `..` are cleaned away |
| `Modpack.Visit` | cmd/cloud-boot/push/modpack/pack.go:47-80 | the callback writes the one record of a directory, link or file, none for the rest, or fails |
| `Modpack.WalkDir` | cmd/cloud-boot/push/modpack/pack.go:39-80 | the walk appends the records of the tree in order, up to the first error |
| `Modpack.PackModules` | cmd/cloud-boot/push/modpack/pack.go:19-85 | the records written, the failure, and that the archive is closed only when nothing failed |
| `PackFacts.WalkSucceedsExactly` | cmd/cloud-boot/push/modpack/pack.go:39-80 | the walk succeeds if and only if everything in the tree but its special files can be read |
| `Extraction.WalkUnpacks` | cmd/cloud-boot/push/modpack/pack.go:39-80 | the records of a tree, unpacked at a vacant place, never get stuck and put exactly what is kept of the tree there |
| `PackFacts.ArchiveFinishesExactly` | cmd/cloud-boot/push/modpack/pack.go:20-84 | how packing ends: without a source, with one that is no directory, with something unreadable, or well, and when |
| `PackFacts.ArchiveRebuildsTree` | cmd/cloud-boot/push/modpack/pack.go:19-85 | unpacking a finished archive gives at every path what the source tree has there but for special files: its kind, its bytes, its target and the nine permission bits of its mode, no more bits, and nothing else |
| `PackFacts.UnpacksExactly` | cmd/cloud-boot/push/modpack/pack.go:27-85 | a finished archive can be unpacked if and only if the release is neither `.` nor `..` |
| `PackFacts.HoldsWhatWasSeenExactly` | cmd/cloud-boot/push/modpack/pack.go:20-39 | a finished archive unpacks to the directory that `os.Stat` saw if and only if the source is not itself a link |
| `PackFacts.LinkedSourceLosesItsTree` | cmd/cloud-boot/push/modpack/pack.go:20-39 | of a link to a directory the link is packed, and nothing below it |
| `PackFacts.UnpacksWhenOrdered` | cmd/cloud-boot/push/modpack/pack.go:58-75 | records can be unpacked in order if and only if every parent directory comes first and no name comes twice |
| `PackFacts.ArchiveIsOrdered` | cmd/cloud-boot/push/modpack/pack.go:39-85 | so it is for every archive, also one that an error cut short |
| `ArchiveOrder.ArchiveInOrder` | cmd/cloud-boot/push/modpack/pack.go:32-84 | the records of every archive, finished or not, are in the lexical order of their paths, part by part |
| `PackFacts.ArchiveStaysBelow` | cmd/cloud-boot/push/modpack/pack.go:27-80 | everything after the first two records lies at or under the release |
| `PackFacts.WalkIsPrefix` | cmd/cloud-boot/push/modpack/pack.go:39-84 | a walk that fails has written the start of what it would have written |

## Left out

- Runs.CreatedDiskLivesOn: speaks of completed runs; a run that is killed midway can leave a recognised disk without a file system, and the code makes no promise there.
- Layout.ShellWellLaidOut: sizes from 2 to 2^43 - 1 MiB; outside them there is no layout to speak of (`Layout.ValidSizeExactly`).
- CacheDisk.MakeCacheDisk: the file is a whole value with a position; permissions, links and failing writes are not modelled.
- Registry.Server.UploadBlob: the exchange of `HEAD`, `POST` and `PUT` is one request; `oci.PushBlob` is in another repository.
- Modpack.PackModules: an `out` inside `src`, and writes that fail, are not modelled; the walk meets a fixed tree.
- Resume.ResumeConverges: between the two runs nobody else pushes; concurrent pushers on one tag are outside the model.
- The unpacker in `Extraction` is a reference: each record needs its parent directory and an absent path. The kernel's own unpacker accepts a directory twice.
- HTTP, JSON, SHA-256, gzip, the bytes of the cpio format and of the FAT file system: opaque.
- `fakereg.StatefulFailReg` as a separate object: its one failing upload is a case of the schedules of faults.
- `internal/uki`, `push plan`, `label`, `reset-cloud-boot.sh`, the command-line wiring and what is printed: thin or in terms of code that is elsewhere.
