# JCZX_AssetTool core in Dafny

This project models the core of JCZX_AssetTool, a tool for a game's Unity asset bundles.

## What is modelled

**Bundle header strip and prepend** (`src/core/crypto.py`, `decrypt.py`, `encrypt.py`).
- An encrypted bundle carries an extra header in front of its UnityFS data.
- `find_next_unityFS_index` works on the hex text of the file. When the pattern "UnityFS" plus zero digits occurs fewer than two times, it returns -1. Otherwise it takes the last occurrence that does not start the hex text. At an even hex position 2o it returns the byte offset o where the header ends; at an odd position `unhexlify` raises.
- `decrypt_file` cuts that many bytes from the front. `encode_file` copies `data[:header_len]` back in front.
- The batch drivers run one job per file on a thread pool and write the index cache of header lengths. The model keeps two-phase behaviour: every job runs, then the first future that raised re-raises. The cache is written only when no future raised.

**Straight and premultiplied alpha** (`src/core/image_processor.py`, `image_tab.py`).
- The two pixel loops are modelled in place on a two-dimensional array of RGBA pixels. The batch's mode gate, output path and success count are modelled too.
- `ImageTab.process_image` converts a file in place. It derives a backup name in the same directory, removes an older backup, renames the original and saves the result under the original name.

**Asset-bundle offset** (`offset.py`).
- `get_ab_offset` adds `c | (c << 16)` for the last three characters of a base name. The result is reduced mod 256 and clamped to at least 1. It is proved equal to max(1, (23 + the sum of those code points) mod 256): each hash term agrees with its code point in the low byte.

Module layout:
- `Outcomes`: Option, the exceptions, and returns-or-raises.
- `Paths`: basename and directory part.
- `UnityFsLocator`, `HeaderTransform`, `AssetBatch`: the bundle core.
- `AlphaConversion`, `ImageProcessor`, `ImageTab`: the image core.
- `AbOffset`: the offset.

The directory is modelled as maps from relative path to file contents, plus the set of sub-directories; the two form a directory tree (`AssetBatch.IsTree`). The clock is passed in as the timestamp string.

Three behaviours of the code worth knowing:
- **Which marker the locator picks.** The greedy regular expression `.+556e…` ends at the *last* occurrence of the 23-digit pattern that does not start the hex text (`UnityFsLocator.EligibleAnswer`).
- **No mode check in the tab.** `ImageTab.process_image` converts whatever `Image.open` returns, with no mode check (`ImageTab.TabConversion`).
- **Rename, not copy.** The original file is renamed to the backup name; it is not copied.

## Model

| member | source | states |
|---|---|---|
| Paths.BasenameIsLastComponent | offset.py:6 | `os.path.basename` is the suffix after the last '/', holds no '/', and is preceded by '/' when shorter than the path |
| Paths.BasenameOfPlainName | decrypt.py:47-53 | a name without '/' (an `iterdir` entry of the root) is its own base name, so the file name the job returns is the entry's relative path |
| Paths.DirPartAndBasename | image_tab.py:100 | a path is its directory part (empty or ending in '/') followed by its base name |
| Paths.AppendName | image_tab.py:109 | a slash-free name appended to a directory part has that base name and that directory part |
| UnityFsLocator.FindNextUnityFsIndex | src/core/crypto.py:17-33 | find_next_unityFS_index: -1 exactly when the pattern occurs fewer than two times in the hex text; any answer lies in -1..len(data) |
| UnityFsLocator.SearchStart | src/core/crypto.py:32 | where `re.search` places the pattern: an occurrence at digit 1 or later with none after it, or nothing when no such occurrence exists |
| UnityFsLocator.FindAllCount | src/core/crypto.py:28 | `len(re.findall(...))`, the left-to-right non-overlapping count; its meaning is stated by `ScanCountsMatch`, `ScanFindsMatch` and `CountAtLeastTwoIff` |
| UnityFsLocator.Hexlify | src/core/crypto.py:27 | the hex text has two digits per byte |
| UnityFsLocator.Unhexlify | src/core/crypto.py:33 | `unhexlify` raises exactly on odd-length text and otherwise pairs digits into bytes, half as many as digits |
| UnityFsLocator.LastMatchBelow | src/core/crypto.py:32 | the greedy `.+` search ends at the last pattern occurrence starting at digit 1 or later, and finds none exactly when there is none |
| UnityFsLocator.UnhexlifyHexlify | src/core/crypto.py:27-33 | unhexlify(hexlify(d)) == d |
| UnityFsLocator.NoMatchInside | src/core/crypto.py:28 | no occurrence of the pattern starts inside another |
| UnityFsLocator.NoSelfOverlap | src/core/crypto.py:28 | two occurrences are at least 23 digits apart |
| UnityFsLocator.ScanCountsMatch | src/core/crypto.py:28 | the `findall` scan counts every occurrence it reaches |
| UnityFsLocator.ScanFindsMatch | src/core/crypto.py:28 | a positive `findall` count exhibits an occurrence |
| UnityFsLocator.CountAtLeastTwoIff | src/core/crypto.py:28-29 | `len(findall) >= 2` exactly when two occurrences exist |
| UnityFsLocator.IneligibleIff | src/core/crypto.py:28-30 | the locator returns -1 exactly when fewer than two occurrences exist |
| UnityFsLocator.EligibleAnswer | src/core/crypto.py:31-33 | with two occurrences the search succeeds at the last occurrence (digit 23 or later); an odd start raises the odd-length error and an even start 2o returns o |
| UnityFsLocator.PatternSpellsMarker | src/core/crypto.py:28 | the first 22 pattern digits spell the bytes "UnityFS" and four 0x00 bytes |
| UnityFsLocator.ByteFromDigits | src/core/crypto.py:27 | byte i is recovered from hex digits 2i and 2i+1 |
| UnityFsLocator.DigitsUnderMatch | src/core/crypto.py:28 | an occurrence holds the pattern digit by digit |
| UnityFsLocator.BytesUnderDigits | src/core/crypto.py:32-33 | under an occurrence at digit 2o, bytes o..o+10 are spelled by the pattern's digit pairs and byte o+11 is below 16 |
| UnityFsLocator.SpelledBytesAreMarker | src/core/crypto.py:32-33 | bytes spelled by the pattern's digit pairs are the 11 marker bytes |
| UnityFsLocator.MarkerBytes | src/core/crypto.py:32-33 | an occurrence at digit 2o means the marker bytes at byte o |
| UnityFsLocator.OffsetIsMarker | src/core/crypto.py:32-33 | a stripped file's offset o satisfies 12 <= o <= len-12, with "UnityFS", four 0x00 bytes and a byte below 0x10 at o |
| HeaderTransform.DecryptBuffer | src/core/crypto.py:47-59 | decrypt_file on one buffer: raises exactly when the locator raises; reports the locator's answer; the contents are kept for -1 and otherwise lose exactly that many leading bytes |
| HeaderTransform.Decoded | src/core/crypto.py:50-56 | a file's contents after its decrypt job, successful or not, are a suffix of the original |
| HeaderTransform.EncodeBuffer | src/core/crypto.py:124-126 | encode_file on one buffer, `data[:header_len] + data`; its shape for each range of `header_len` is stated by `EncodeWithinLength`, `EncodeBeyondLength` and `EncodeNegative` |
| HeaderTransform.PyPrefix | src/core/crypto.py:124 | Python's `data[:n]` is a prefix of the data for any integer n |
| HeaderTransform.PySuffix | src/core/crypto.py:56 | `data[n:]` has len-n bytes, or none when n exceeds the length |
| HeaderTransform.LocatorRaisesOnlyOddHex | src/core/crypto.py:32-33 | the only exception the locator raises is the odd-length error; the search always finds a match |
| HeaderTransform.DecryptIneligible | src/core/crypto.py:50-53 | a file without two occurrences reports -1 and is left as it is |
| HeaderTransform.DecryptEligible | src/core/crypto.py:50-59 | an eligible file loses exactly its first L bytes, and the rest starts with the marker |
| HeaderTransform.EncodeWithinLength | src/core/crypto.py:124-126 | for 0 <= L <= len the encoder writes len+L bytes: the first L bytes, then the whole input |
| HeaderTransform.EncodeBeyondLength | src/core/crypto.py:124-126 | for L >= len the slice clamps and the input is written twice |
| HeaderTransform.EncodeNegative | src/core/crypto.py:124-126 | a negative L drops -L bytes from the end of the copied prefix |
| HeaderTransform.StripThenPrepend | src/core/crypto.py:124-126 | encoding with o after stripping o bytes gives F[o:2o] + F[o:], equal to F exactly when the header equals the o bytes after it |
| HeaderTransform.DecodeEncodeRoundTrip | src/core/crypto.py:121-126 | encode(decode(F), L) == F exactly when 2L <= len and F[:L] == F[L:2L] |
| AssetBatch.CacheName | src/core/crypto.py:82-87 | `cache/index_cache_{timestamp}.json`: the timestamp sits between a fixed 18-character head and ".json", so different timestamps give different cache files |
| AssetBatch.LegacyCacheName | decrypt.py:56-59 | `index_cache/index_cache_{date_str}.json`, likewise with a fixed 24-character head |
| AssetBatch.CollectByPath | src/core/crypto.py:97-100 | the result loop raises exactly when some future raised, and re-raises that future's exception; otherwise its dict is the non-(-1) lengths by relative path |
| AssetBatch.CollectByName | decrypt.py:50-53 | as above but keyed by returned file name; the keys are exactly the returned names and each value comes from a future with that name |
| AssetBatch.WaitAll | src/core/crypto.py:159-160 | the wait loop raises exactly when some job raised, with that job's exception |
| AssetBatch.AssetDirectory.DecryptFile | src/core/crypto.py:36-59 | the job returns (name, locator answer) or raises for a directory or missing path; the file becomes its decoded contents |
| AssetBatch.AssetDirectory.EncodeFile | src/core/crypto.py:112-128 | the file becomes `data[:header_len] + data`; a directory or missing path raises and changes nothing |
| AssetBatch.AssetDirectory.RunDecryptJobs | src/core/crypto.py:95 | every submitted job runs: each path in the set is decoded, and the futures are the jobs' outcomes |
| AssetBatch.AssetDirectory.Decrypt | src/core/crypto.py:62-109 | a missing root raises and changes nothing; otherwise every file is decoded; the call raises exactly when some locator raises; otherwise the lengths are returned and saved as a new cache |
| AssetBatch.AssetDirectory.RunEncodeJobs | src/core/crypto.py:152-156 | every index entry whose path exists gets one job; every indexed file is encoded |
| AssetBatch.AssetDirectory.Encode | src/core/crypto.py:131-162 | the root, empty-name and unreadable-cache checks raise in order and change nothing; otherwise every indexed file is encoded; the call raises exactly when an entry names a directory, and otherwise returns the job count |
| AssetBatch.AssetDirectory.LegacyDecrypt | decrypt.py:38-65 | a missing root raises; otherwise only top-level files are decoded; the call raises exactly when a top-level entry's job raises, and otherwise saves the by-name results |
| AssetBatch.AssetDirectory.RunLegacyEncodeJobs | encrypt.py:33-39 | entries without an index entry are skipped; the others are encoded |
| AssetBatch.AssetDirectory.LegacyEncode | encrypt.py:20-44 | the same checks as `encode`; top-level indexed files are encoded; the call raises exactly when an indexed top-level entry is a directory |
| AssetBatch.DecryptJobOfFile | src/core/crypto.py:47-59 | a regular file's job raises or returns exactly as its locator does |
| AssetBatch.FileFuturesRaise | src/core/crypto.py:95-98 | some decrypt future raises exactly when some file's locator raises |
| AssetBatch.FileFuturesOddHex | src/core/crypto.py:95-98 | every raised decrypt future carries the odd-length error |
| AssetBatch.FileFuturesResults | src/core/crypto.py:97-100 | the collected results are the eligible files' offsets by path |
| AssetBatch.EncodeFutures | src/core/crypto.py:153-160 | encode futures exist for the existing entries; some raises exactly when an entry is a directory, always with that error |
| AssetBatch.EntryFutures | decrypt.py:47-51 | some legacy decrypt future raises exactly when some top-level entry's job raises |
| AssetBatch.EntryFuturesNamed | decrypt.py:51-53 | each legacy future's returned name is its own entry |
| AssetBatch.ByNameIsByKey | decrypt.py:51-53 | when names equal keys, collecting by name equals collecting by key |
| AssetBatch.EntryPathResults | decrypt.py:50-53 | the legacy results are the eligible top-level files' offsets |
| AssetBatch.LegacyEncodeFutures | encrypt.py:34-42 | a legacy encode future raises exactly when an indexed top-level entry is a directory, always with that error |
| AssetBatch.EntryBasename | decrypt.py:47 | an `iterdir` entry's name is its relative path |
| AssetBatch.NestedPathMakesLegacyDecryptRaise | decrypt.py:47-53 | in a directory tree, any path below a sub-directory means a top-level sub-directory, whose job raises: decrypt.py's batch raises on every root with sub-directories |
| AbOffset.AbOffsetSpec | offset.py:3-17 | the offset get_ab_offset promises: 23 for a missing or empty name, else max(1, (23 + code points of the base name's last three characters) mod 256); `ClampedLowByte` and `GetAbOffset` state that it lies in 1..255 |
| AbOffset.HashCode | offset.py:14 | the per-character term `c \| (c << 16)`; its low byte is stated by `HashCodeLowByte` |
| AbOffset.GetAbOffset | offset.py:3-17 | 23 for a missing or empty name; otherwise the clamped low byte of 23 plus the code points of the base name's last three characters; always in 1..255 |
| AbOffset.HashLastThree | offset.py:7-15 | the loop adds `c \| (c << 16)` for the last min(3, len) characters, stopping early for short names |
| AbOffset.OrShifted | offset.py:14 | or-ing in `t << k` leaves the low k bits alone |
| AbOffset.SplitBits | offset.py:14 | a number is its low k bits plus its shifted high part |
| AbOffset.Shl16 | offset.py:14 | `x << 16` is x * 65536 |
| AbOffset.HashCodeLowByte | offset.py:14 | `c \| (c << 16)` has the same low byte as c |
| AbOffset.SumHashLowByte | offset.py:13-15 | the sum of hash terms has the same low byte as the sum of code points |
| AbOffset.SumHashStep | offset.py:13-15 | taking one more character from the end adds its hash term |
| AbOffset.ClampedLowByte | offset.py:16 | `abs` never changes the sum, the clamped hash equals the clamped code-point sum, and it lies in 1..255 |
| AbOffset.AbOffsetOfBundleName | offset.py:6-17 | "dir/a.ab" gives 8: only the base name counts |
| AbOffset.AbOffsetOfShortName | offset.py:8-16 | a plain name of at most three characters uses all of them |
| AbOffset.AbOffsetClampsToOne | offset.py:16 | 23 plus the code points of "aDD" is 256, whose low byte 0 is raised to 1 |
| AbOffset.AbOffsetOfDirectoryName | offset.py:6-12 | a name ending in '/' has an empty base name, so the offset stays 23 |
| AlphaConversion.Premultiplied | src/core/image_processor.py:24-30 | one pixel premultiplied: alpha kept and no colour channel brightens |
| AlphaConversion.Straightened | src/core/image_processor.py:50-57 | one pixel straightened with exact arithmetic: alpha kept and no colour channel darkens |
| AlphaConversion.StraightenedUint8 | src/core/image_processor.py:54-57 | one pixel straightened with the product wrapping at uint8 (NumPy 2 or later): alpha kept, and alpha 0 and 255 left alone |
| AlphaConversion.MaxRgb | src/core/image_processor.py:51 | `max(rgb)` bounds the three colour channels and is one of them |
| AlphaConversion.PremultiplyChannel | src/core/image_processor.py:30 | `c*a//255` never exceeds c and is the floor of c*a/255 |
| AlphaConversion.StraightChannel | src/core/image_processor.py:54-57 | `c*255//d` for c <= d is at least c and is the floor of c*255/d |
| AlphaConversion.StraightDivisor | src/core/image_processor.py:52-57 | the divisor is maxrgb when it exceeds alpha, else alpha; it is positive and at least maxrgb |
| AlphaConversion.MapPixels | src/core/image_processor.py:22-23 | the conversion visits every pixel: same shape, pixel (i, j) converted from (i, j) |
| AlphaConversion.ToMatrix | src/core/image_processor.py:45 | `np.array(img)` is a fresh matrix holding the image's pixels |
| AlphaConversion.FromMatrix | src/core/image_processor.py:58 | `Image.fromarray` gives a rectangular image holding the matrix's pixels |
| AlphaConversion.PremultiplyMatrix | src/core/image_processor.py:21-31 | after the loops every matrix pixel is the premultiplied form of its old value |
| AlphaConversion.StraightMatrix | src/core/image_processor.py:45-57 | after the loops every matrix pixel is the straightened form of its old value |
| AlphaConversion.PremultiplyAlpha | src/core/image_processor.py:11-32 | the returned image holds each input pixel premultiplied |
| AlphaConversion.StraightAlpha | src/core/image_processor.py:35-58 | the returned image holds each input pixel straightened |
| AlphaConversion.PremultiplyAtExtremes | image_tab.py:14-17 | alpha 255 leaves the pixel alone and alpha 0 clears its colour, as the uniform rule gives |
| AlphaConversion.PremultiplyBounds | image_tab.py:18-20 | premultiplying keeps alpha, never brightens a channel, and is `c*a//255` in between |
| AlphaConversion.StraightBounds | image_tab.py:31-38 | straightening keeps alpha, leaves alpha 0 and 255 alone, and never darkens a channel |
| AlphaConversion.StraightMaxBecomes255 | image_tab.py:32-35 | when maxrgb exceeds alpha the brightest channel becomes exactly 255 |
| AlphaConversion.StraightOfItself | image_tab.py:35 | the channel equal to the divisor becomes 255 |
| AlphaConversion.OpaqueRoundTrips | src/core/image_processor.py:24-25 | at alpha 255 both compositions of the two conversions are the identity |
| AlphaConversion.TransparentStraightThenPremultiply | src/core/image_processor.py:26-27 | at alpha 0 straightening then premultiplying leaves no colour |
| AlphaConversion.PremultipliedRoundTrip | src/core/image_processor.py:55-57 | a valid premultiplied pixel straightened and premultiplied again comes back within one step below per channel |
| AlphaConversion.ChannelRoundTrip | src/core/image_processor.py:57 | per channel: c-1 <= premultiply(straight(c, a), a) <= c |
| AlphaConversion.StraightAfterPremultiply | src/core/image_processor.py:28-30 | premultiplying then straightening never brightens a channel past its start |
| AlphaConversion.ChannelBelowAlpha | src/core/image_processor.py:30 | a premultiplied channel is at most its alpha |
| AlphaConversion.ChannelBack | src/core/image_processor.py:30 | straightening a premultiplied channel gives at most the original |
| AlphaConversion.ConversionsKeepShapeAndAlpha | src/core/image_processor.py:21-58 | both conversions keep the shape and every pixel's alpha |
| AlphaConversion.StraightChannelUint8 | src/core/image_processor.py:54-57 | the uint8 evaluation `(c*255 mod 256)//d` that NumPy 2 or later performs is at most the wrapped product |
| AlphaConversion.StraightUint8Wraps | src/core/image_processor.py:54-57 | for (200,0,0,201) red comes out 0 as written against 253 exactly; for (200,0,0,100) 0 against 255 |
| ImageProcessor.OutputDirName | src/core/image_processor.py:123-124 | `output_{conversion_name}`: a single non-empty path component |
| ImageProcessor.OutputPath | src/core/image_processor.py:97 | `output_dir / file_path.name`; its parts are stated by `OutputPathParts` |
| ImageProcessor.OutputPathParts | src/core/image_processor.py:97 | the output path keeps the input's base name and sits directly in the output directory |
| ImageProcessor.ModeGate | src/core/image_processor.py:82-88 | RGBA and RGB pass (RGBA unchanged) and every other mode is rejected |
| ImageProcessor.RgbBecomesOpaque | src/core/image_processor.py:83-85 | `convert('RGBA')` of an RGB image keeps shape and colour and sets alpha to 255 |
| ImageProcessor.ImageFolder.ProcessImageFile | src/core/image_processor.py:61-104 | True exactly when the path opens and its mode passes the gate; then the converted image is saved at `output_dir/name`, otherwise nothing is saved |
| ImageProcessor.ImageFolder.BatchProcessImages | src/core/image_processor.py:107-156 | the count is the number of paths processed, at most the number of paths; the outputs are every success written in turn |
| ImageProcessor.SuccessCountBounds | src/core/image_processor.py:136-156 | the count is at most the number of paths, equals it exactly when all succeed, and is 0 exactly when none does |
| ImageProcessor.WrittenAllKeys | src/core/image_processor.py:97-98 | the batch saves exactly one output per processed path's `output_dir/name` |
| ImageProcessor.WrittenAllLast | src/core/image_processor.py:97-98 | a processed path whose output name no later path reuses keeps its own converted image |
| ImageProcessor.OutputDirsDiffer | src/core/image_processor.py:123-124 | the two conversions write to different output directories |
| ImageTab.TabConversion | image_tab.py:10-39 | the conversion function on whatever `Image.open` returns: only non-RGBA pictures raise, always with IndexError; a result keeps the mode and the row count |
| ImageTab.RStripSlashes | image_tab.py:100 | `rstrip('/')` gives a prefix of its input |
| ImageTab.SplitHead | image_tab.py:100 | the head of `os.path.split` is a prefix of the path |
| ImageTab.JoinPath | image_tab.py:109 | `os.path.join(head, tail)` for two components; `JoinOntoDirectory` and `JoinOntoName` state that splitting the join gives back both parts |
| ImageTab.BeforeFirstPng | image_tab.py:109 | `split(".png")[0]` is a prefix of the name |
| ImageTab.BackupSuffix | image_tab.py:103-106 | the backup marker chosen by the conversion type; `SuffixHasNoSlash` and `BackupSuffixes` state that it holds no '/' and that the two types differ |
| ImageTab.BackupName | image_tab.py:109 | `new_name`, the backup base name joined onto the head of the split; `BackupNameInSameDirectory` and `BackupNameDiffers` state where it lies and that it is never the file name |
| ImageTab.ConvertPicture | image_tab.py:98-99 | the conversion of an opened file: RGBA converted by the pixel loops, other modes given back unchanged or raising IndexError as `TabConversion` says |
| ImageTab.NonRgbaFiles | image_tab.py:10-39 | without a gate, a non-RGBA file that does not raise comes back unchanged; premultiplying a non-empty one raises; straightening an RGB one succeeds exactly when every blue sample is 0 or 255 |
| ImageTab.TabAgreesWithBatch | image_tab.py:10-39 | on RGBA files the tab's conversion equals the batch's |
| ImageTab.RStripShape | image_tab.py:100 | `rstrip('/')` leaves nothing or text not ending in '/', and is idempotent |
| ImageTab.SplitHeadShape | image_tab.py:100 | the head `os.path.split` gives is empty, made of slashes, or does not end in '/' |
| ImageTab.BeforeFirstPngIsPrefix | image_tab.py:109 | `split(".png")[0]` is a prefix with no ".png" starting inside it, and ".png" follows it when it is shorter than the name |
| ImageTab.StemHasNoSlash | image_tab.py:109 | the kept part of the name holds no '/' |
| ImageTab.SuffixHasNoSlash | image_tab.py:103-106 | neither backup marker nor ".png" holds a '/' |
| ImageTab.BackupBaseHasNoSlash | image_tab.py:109 | the backup's base name is non-empty and holds no '/' |
| ImageTab.JoinOntoDirectory | image_tab.py:109 | joining a slash-free name onto an empty or slash-only head splits back into both |
| ImageTab.JoinOntoName | image_tab.py:109 | joining a slash-free name onto a head not ending in '/' splits back into both |
| ImageTab.BackupNameInSameDirectory | image_tab.py:100-109 | the backup's base name is stem + marker + ".png" and its split head is the original's |
| ImageTab.BackupNameDiffers | image_tab.py:109-113 | the backup name never equals the file name |
| ImageTab.BackupSuffixes | image_tab.py:103-109 | the two conversion types give different backup names |
| ImageTab.PngFolder.ProcessImage | image_tab.py:95-124 | saved exactly when the file opens and its conversion does not raise; then the original is at the backup name and the result at the original name, else nothing changes |
| ImageTab.AfterSaveContents | image_tab.py:111-114 | a save adds only the backup, puts the original there and the result under the original name, and keeps every other file |
| ImageTab.SplitOfHero | image_tab.py:100 | `os.path.split("art/hero.png")` gives "art" and "hero.png" |
| ImageTab.BackupOfHero | image_tab.py:100-109 | "art/hero.png" is backed up as "art/hero" + marker + ".png" |

## Left out

- Threads and thread pools. Jobs run one after another. The order of submission and of `as_completed` is left open, so every proved result holds for any order.
- Construction of the `ThreadPoolExecutor` is not modelled. The model has no per-job worker limit.
- Log messages and the `log_callback` default of `print` are not modelled; they are output only.
- Called with no callback, decrypt.py:42 raises TypeError right after the root check; this is not modelled because every caller passes one.
- The JSON text of the index cache is not modelled. A cache is the map it holds.
- A JSON `null` value in the index cache is not modelled in either encoder: every index value is an integer. For `null`, encrypt.py skips the entry (encrypt.py:35-38), while crypto.py computes `data[:None] + data` and writes the file twice (src/core/crypto.py:124).
- `datetime.now()` is a string parameter. `mkdir` of the cache and output directories is left out; it always succeeds.
- Read, write and save failures other than a directory or a vanished path are not modelled. This includes permission errors and a full disk.
- `pathlib` normalisation and Windows separators are not modelled. Paths are POSIX strings relative to the root.
- AssetBatch.AssetDirectory.Encode: the returned count stands for the value the source only logs (src/core/crypto.py:162).
- `select_images` and the rest of the Tkinter code are not modelled. This is user-interface code.
- ImageTab.TabConversion: modes other than RGB and RGBA are treated as single-sample. Two-sample (LA) and other four-sample modes (CMYK, RGBX) are not modelled.
- ImageTab.PngFolder.ProcessImage: the save after the rename always succeeds. An extension PIL cannot write would leave the original only under the backup name; this is not modelled. A directory at the backup path, where `os.remove` raises, is not modelled either.
- ImageProcessor.ImageFolder.BatchProcessImages: outputs are written in path order. When two paths share a base name, the surviving output depends on thread timing, which is not modelled; `WrittenAllLast` covers the names no later path reuses.
- AlphaConversion.Straightened: uses exact integer arithmetic, which is what NumPy 1.x computes. With NumPy 2 or later the product wraps at uint8; that case is modelled separately under Findings. The source pins no NumPy version.

## Findings

| source | as written | input that shows it | evidently intended | confidence | as-written member | corrected member |
|---|---|---|---|---|---|---|
| src/core/image_processor.py:54-57 | with NumPy 2 or later (NEP 50 promotion), `rgb[i] * 255 // d` on the uint8 samples of `np.array(img)` wraps the product mod 256 before dividing; NumPy 1.x promotes to int64 and is exact, and no version is pinned. `image_tab.py:35-38` has the same code. | premultiplied pixel (200, 0, 0, 201): red becomes 56 // 201 = 0 instead of 253 | the exact `c * 255 // d`, which keeps every channel at or above its input and makes the brightest channel 255 when maxrgb exceeds alpha | medium, not executed | AlphaConversion.StraightUint8Wraps | AlphaConversion.StraightBounds |
