# PixelForge image pipeline, modelled in Dafny

PixelForge is a small Flask application (`main.py`). An uploaded image is
accepted by its extension. It is then processed by one of ten operations
selected by a form tag, and the result is written under `static/`. This
project models the deterministic core of `main.py`:

- `Upload` covers the upload filter `allowed_file` and its extension set.
- `Naming` covers the dispatch and output naming of `process_image`. It
  includes the ten tags, the transform and constants each branch uses, the
  path each branch returns, and what happens when the image cannot be
  decoded.
- `Effects` covers the three integer tints `duotone`, `monochrome` and
  `cyanotype`. They are methods that allocate a zero
  height x width x channels array of bytes, as `np.zeros_like` does, and
  fill channels 0, 1 and 2.
- `UInt8` holds the byte type and NumPy's `uint8` arithmetic, which wraps
  modulo 256.
- `Wrappers` holds the `Option` and `Result` types.

The gray plane that `duotone` and `monochrome` get from OpenCV's BGR-to-gray
conversion is an input (a height x width byte array). Whether `cv2.imread`
produced an image is a boolean input of `Naming.ProcessImage`.

Two behaviours of the code are easy to misread:

- `filename.split('.')[0]` keeps the text before the first '.', not the
  last, so `a.b.png` under `cpng` becomes `static/a.png`.
- Duotone on a white pixel does not give the first colour: the `uint8`
  arithmetic gives (1, 254, 254) (see Findings).

## Model

| member | source | states |
|---|---|---|
| `Upload.Lower` | main.py:15 | `.lower()`: the result has the input's length, each ASCII upper-case letter becomes its lower-case letter, and every other character is kept |
| `Upload.AllowedFile` | main.py:14-15 | `allowed_file`: an accepted name contains a '.', and its text after the last '.' has 3 or 4 characters, the lengths of the five allowed extensions |
| `Upload.AfterLastDot` | main.py:15 | `rsplit('.', 1)[1]`: the result holds no '.', and the name is some prefix, a '.', then the result |
| `Upload.AfterLastDotOfJoin` | main.py:15 | for any prefix `p` and any '.'-free `e`, the text after the last '.' of `p + "." + e` is exactly `e` |
| `Upload.AllowedFileIff` | main.py:8-15 | `p + "." + e` (with `e` free of '.') is accepted if and only if `e`, lower-cased, is one of png, webp, jpg, jpeg, gif |
| `Upload.NoDotRejected` | main.py:15 | a name with no '.' is rejected |
| `Upload.EmptyExtensionRejected` | main.py:15 | a name ending in '.' is rejected (its extension is empty) |
| `Upload.AllowedFileIgnoresStem` | main.py:15 | two names with the same last extension are accepted or rejected together, whatever precedes the last '.' |
| `Upload.AllowedFileIgnoresCase` | main.py:8-15 | upper-casing or lower-casing the extension does not change the verdict (`.PNG` is accepted exactly when `.png` is) |
| `UInt8.Wrap` | main.py:36-38 | the value a `uint8` array operation produces: its residue modulo 256, the one byte that differs from the integer result by a multiple of 256; bytes are left unchanged |
| `UInt8.Add8` | main.py:36-38 | `uint8` addition equals the sum below 256 and the sum minus 256 otherwise |
| `UInt8.Sub8` | main.py:55-56 | `uint8` subtraction equals the difference when it is non-negative and the difference plus 256 otherwise |
| `UInt8.Mul8` | main.py:36-38 | `uint8` multiplication is congruent to the product modulo 256 and equals it below 256 |
| `Effects.DuotoneSample` | main.py:36-38 | the element-wise `uint8` evaluation of `gray*c1 + (1-gray)*c2` equals the integer blend `g*c1 + (1-g)*c2` taken modulo 256 |
| `Effects.BlendAtBlack` | main.py:36-38 | a gray level of 0 yields exactly the second colour's channel |
| `Effects.BlendAtOne` | main.py:36-38 | a gray level of 1 yields exactly the first colour's channel |
| `Effects.BlendOfEqualColors` | main.py:36-38 | when both colours agree on a channel, that channel is the same at every gray level |
| `Effects.Duotone` | main.py:31-39 | fresh array of the input's shape; channel k (k < 3) at every pixel is `Blend(g, color1[k], color2[k])`, that is `(g*color1[k] + (1-g)*color2[k]) mod 256` for the pixel's gray level g; further channels stay 0 |
| `Effects.Monochrome` | main.py:41-49 | fresh array of the input's shape; channel 0 is `hue` and channels 1 and 2 are the pixel's gray level at every pixel; further channels stay 0 |
| `Effects.Cyanotype` | main.py:51-57 | fresh array of the input's shape; channel 0 is 255, and channels 1 and 2 are `255 - img[y, x, 0]` at every pixel, so source channels 1 and 2 have no influence; further channels stay 0 |
| `Effects.NormalizedBlend` | main.py:36-38 | corrected blend: gray 0 gives the second colour, gray 255 the first, and the result always lies between the two colours |
| `Naming.Tag` | main.py:62-97 | each of the ten form values compared in the if/elif chain is a non-empty word of lower-case ASCII letters; which operation each selects is stated by `ParseTag` and `TagInjective` |
| `Naming.ParseOperation` | main.py:62-100 | the if/elif chain recognises exactly the ten tags: a result names an operation whose tag equals the input, and there is no result exactly when no tag equals the input |
| `Naming.TagInjective` | main.py:62-100 | different operations are selected by different tags |
| `Naming.ParseTag` | main.py:62-100 | each operation's tag selects that operation |
| `Naming.Stem` | main.py:67 | `split('.')[0]` is a '.'-free prefix of the name, followed by a '.' or by the end of the name |
| `Naming.StemUnique` | main.py:67 | any '.'-free prefix that is followed by a '.' or by the end of the name is the stem |
| `Naming.Suffix` | main.py:67-99 | `cwebp` alone gets `.webp`, `cpng` alone gets `.png`, and every other renaming tag's suffix ends in `.jpg`, so those outputs are JPEG |
| `Naming.OutputPath` | main.py:59-101 | the returned path is empty exactly when the tag is unknown, and otherwise starts with `static/` |
| `Naming.GrayKeepsName` | main.py:62-65 | `cgray` returns `static/` followed by the unchanged file name |
| `Naming.RenamedOutput` | main.py:66-100 | every tag but `cgray` returns `static/`, then the longest '.'-free prefix of the name, then its suffix (`.webp`, `.jpg`, `.png`, `_edges.jpg`, `_sepia.jpg`, `_bw.jpg`, `_duotone.jpg`, `_monochrome.jpg`, `_cyanotype.jpg`) |
| `Naming.RenamedOutputsDistinct` | main.py:66-100 | for one file name, two different tags other than `cgray` give two different paths |
| `Naming.GrayAndJpgShareOutput` | main.py:62-71 | `cgray` and `cjpg` on `x.jpg` both write `static/x.jpg` |
| `Naming.WebpOutputsShared` | main.py:66-68 | `cwebp` on `a.png` and on `a.jpg` both write `static/a.webp` |
| `Naming.StemStopsAtFirstDot` | main.py:72-73 | `cpng` on `a.b.png` writes `static/a.png` |
| `Naming.ProcessImage` | main.py:59-101 | the call fails exactly when the image did not decode and the tag is known; otherwise it returns the path of `OutputPath` |
| `Naming.UnknownOperationIsNoOp` | main.py:60-101 | a tag outside the ten takes no branch: the path is empty and `process_image` returns the empty string whether or not the image decoded |
| `Naming.TransformOf` | main.py:62-100 | `cgray` and `bw` write the gray image; `cwebp`, `cjpg` and `cpng` write the image unchanged; `edge` runs Canny with thresholds 100 and 200; `duotone` passes the colours (255,0,0) and (0,255,255); `monochrome` passes hue 128; `sepia` and `cyanotype` apply their own transform |
| `Naming.DuotoneBranch` | main.py:89-90 | `duotone` called with the colours `TransformOf` records gives a fresh array of the input's shape whose every cell is `DuotoneAt` of the pixel's gray level with the colours (255,0,0) and (0,255,255): the `uint8` blend in channels 0-2 and 0 beyond; so channels 1 and 2 agree at every pixel and a pixel of gray level 0 is (0, 255, 255) in channels 0-2 (and, by `ProcessDuotoneWhite`, gray level 255 gives (1, 254, 254)) |
| `Naming.MonochromeBranch` | main.py:93-94 | `monochrome` called with the hue `TransformOf` records gives a fresh array of the input's shape with 128 in channel 0 and the gray level in channels 1 and 2 |
| `Naming.ProcessDuotoneChannels` | main.py:36-38 | with the colours (255,0,0) and (0,255,255) of main.py:90, output channels 1 and 2 are equal at every gray level |
| `Naming.ProcessDuotoneBlack` | main.py:36-38 | with the same colours, gray level 0 gives exactly the second colour in every channel |
| `Naming.ProcessDuotoneWhite` | main.py:36-38 | with the same colours, gray level 255 gives (1, 254, 254), not (255, 0, 0) |
| `Naming.ProcessDuotoneNormalized` | main.py:90 | with the corrected blend and the same colours, gray level 255 gives the first colour and 0 the second |

## Left out

- The Flask routes `home`, `about` and `edit` are not modelled (main.py:103-131). Neither are `flash`, `render_template`, `secure_filename` and `file.save`. They are HTTP, templating and file-system plumbing.
- `cv2.imread` and `cv2.imwrite` are not modelled: decoding, encoding and the file system. Decoding is reduced to the `decoded` input of `Naming.ProcessImage`. A failed or unsupported write is not modelled, and neither is codec round-tripping (for example, PNG being lossless).
- `cv2.cvtColor` is foreign code with fixed-point luma weights. Its gray plane is an input of `Effects.Duotone` and `Effects.Monochrome` and is not recomputed.
- `cv2.Canny`, `sepia_tone` and `black_and_white` appear only as `Naming.TransformOf` tags, and Canny keeps its thresholds 100 and 200. Their pixel values are not modelled. `sepia_tone` is floating-point (`cv2.transform` with a float matrix). `cvtColor` and `Canny` are fixed-point or integer foreign code.
- `Naming.ProcessImage` takes the operation as a string. `request.form.get` can return `None`, which matches no tag and behaves like an unknown tag.
- `Upload.Lower` lower-cases ASCII letters only. Python's `str.lower` also maps other characters, but none of them maps to a single letter of png, webp, jpg, jpeg or gif: U+212A maps to `k`, and U+0130 maps to two characters. So acceptance is unchanged.
- `Effects.Duotone`, `Effects.Monochrome` and `Effects.Cyanotype` take images of at least three channels. With fewer channels the source raises at the first missing channel index. `duotone` and `monochrome` raise earlier, in `cvtColor`, which accepts only 3 or 4 channels. That failure is not modelled.
- `Effects.Duotone`, `Effects.Monochrome` and `Effects.Cyanotype` fill channels 0, 1 and 2 pixel by pixel, where NumPy writes one channel plane after another. The order of writes is not captured. The result is the same, because the output array is fresh and only the input is read.
- `Effects.Monochrome` takes `hue` as a byte, and `Effects.Duotone` takes colour channels as bytes. Python integers outside 0..255 are not modelled. `process_image` passes only bytes.
- The channel names in the comments at main.py:54-56 are not reflected. Channels are identified by index only.
- Two concurrent requests writing the same `static/` file are not modelled (the last write wins). `Naming.GrayAndJpgShareOutput` and `Naming.WebpOutputsShared` only show that such paths occur.

## Findings

| source | as written | input that shows it | evidently intended | confidence | as-written member | corrected member |
|---|---|---|---|---|---|---|
| main.py:36-38 | `gray*c1 + (1-gray)*c2` on `uint8` arrays uses the gray level (0..255) as the weight, and every step wraps modulo 256 | gray level 255 with the colours (255,0,0), (0,255,255) of main.py:90 gives (1, 254, 254) instead of (255, 0, 0) | a blend weighted by gray/255, `(g*c1 + (255-g)*c2) / 255`, which gives the first colour at 255 and stays between the two colours | high; not executed | `Naming.ProcessDuotoneWhite` | `Effects.NormalizedBlend` |

`Effects.Duotone` keeps the as-written arithmetic because it models the code.
The corrected blend is `Effects.NormalizedBlend`, and
`Naming.ProcessDuotoneNormalized` applies it to the colours of main.py:90.
