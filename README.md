# swift-vibrant-mac: a Dafny model of the pipeline plumbing

swift-vibrant-mac extracts a palette of named colours from an image. It
scales the image, filters its pixels, quantizes them into swatches, drops
swatches that fail the filter, and scores the rest into palette slots.
This project models the three Swift files that wire that pipeline
together:

- `Image.swift`: the image wrapper. `applyFilter` walks the RGBA buffer,
  `scaleTo` decides whether to shrink, and `isCompatibleImage` checks a
  bitmap's layout (module `Images`).
- `Vibrant.swift`: the default `Options`, the extraction object, the fixed
  order of the stages in `process`, and the palette cache in `getPalette`
  (module `Extraction`).
- `Builder.swift`: the fluent builder. Each method edits one option field,
  and `build` takes a snapshot of the options (module `Building`).

Filters and the list operations on them live in module `Filters`. The
`Option` type lives in `Wrappers`.

The quantizer, the generator, `Filter.combineFilters`, `Filter.defaultFilter`,
`Swatch.applyFilter` and the `Swatch` and `Palette` types are not part of this
model. They appear as opaque types and as fields of the `Library` record.
AppKit and CoreGraphics appear as the `Platform` record: decoding to RGBA
bytes, the image size, and resizing. Nothing about them is assumed beyond
their signatures.

## Model

| member | source | states |
|---|---|---|
| `Images.Masked` | swiftVibrant/Image.swift:21-36 | the working copy has the input's length |
| `Images.MaskedPixel` | swiftVibrant/Image.swift:27-35 | for each whole pixel, the r, g, b bytes are the input's; the alpha byte is 0 if the filter rejects (r,g,b,a) and is the input's otherwise |
| `Images.MaskedTail` | swiftVibrant/Image.swift:22-26 | the `count % 4` trailing bytes are never written |
| `Images.MaskedIdempotent` | swiftVibrant/Image.swift:26-36 | filtering an already filtered buffer with the same filter changes nothing |
| `Images.MaskedUnchangedIff` | swiftVibrant/Image.swift:26-37 | filtering leaves a buffer unchanged iff every whole pixel the filter rejects already has alpha 0; so the returned buffer equals the working copy only for such buffers |
| `Images.MaskRejected` | swiftVibrant/Image.swift:22-36 | the in-place loop leaves exactly `Masked` of the old buffer |
| `Images.Image.ApplyFilter` | swiftVibrant/Image.swift:17-38 | an undecodable image gives []; otherwise the result is the decoded bytes unchanged, whatever the filter, while the working copy is `Masked` |
| `Images.Image.ApplyFilterIntended` | swiftVibrant/Image.swift:17-36 | corrected form: the result is the masked buffer (see Findings) |
| `Images.ReturnedBufferIgnoresFilter` | swiftVibrant/Image.swift:33-37 | for the pixel (10,20,30,255) and a filter that rejects everything, the returned buffer differs from the masked one |
| `Images.ScaleRatio` | swiftVibrant/Image.swift:48-56 | a positive max dimension wins over quality; it shrinks iff the longer side exceeds it, and then brings the longer side exactly to it; otherwise the factor is 1/quality (infinity for quality 0), which shrinks iff quality > 1 or quality < 0 |
| `Images.Reciprocal` | swiftVibrant/Image.swift:55-57 | 1/q times q is 1, and 1/q < 1 iff q > 1 or q < 0 |
| `Images.MaxDimensionOverridesQuality` | swiftVibrant/Image.swift:49-56 | with a positive max dimension the factor does not depend on quality |
| `Images.ScaleImage` | swiftVibrant/Image.swift:66-77 | a factor of exactly 1 returns the image itself; any other factor returns the platform's resized copy |
| `Images.Image.constructor` | swiftVibrant/Image.swift:13-15 | the wrapper holds the given platform image |
| `Images.Image.Scale` | swiftVibrant/Image.swift:62-77 | a factor of exactly 1 keeps the image; any other factor replaces it with the platform's resized copy |
| `Images.Image.ScaleTo` | swiftVibrant/Image.swift:44-60 | the image becomes `Scaled` of the old image: resized by the factor only when the factor is below 1 |
| `Images.IsCompatibleImage` | swiftVibrant/Image.swift:90-115 | true iff the colour space is present and RGB, the alpha bits are `last` or `noneSkipLast`, the byte-order bits are `byteOrder32Little`, 8 bits per component, 32 bits per pixel and rows of width*4 bytes |
| `Images.RedrawTargetIsCompatible` | swiftVibrant/Image.swift:132-140 | the bitmap an incompatible image is redrawn into (`RedrawFormat`) passes `isCompatibleImage`, given that the constants lie inside their masks and the masks are disjoint |
| `Extraction.DefaultOptions` | swiftVibrant/Vibrant.swift:12-26 | colorCount 64, quality 5, no max dimension, the default quantizer and generator, filters `[defaultFilter]`, no combined filter |
| `Extraction.Vibrant.constructor` | swiftVibrant/Vibrant.swift:35-42 | the given options, or the defaults if none are given, with the combined filter set to `combineFilters` of their filter list; no cached palette |
| `Extraction.Vibrant.Process` | swiftVibrant/Vibrant.swift:44-58 | the image is scaled first. The quantizer gets the decoded bytes of the scaled image, unfiltered, because `applyFilter` returns them. The ghost working copy is those bytes masked with `cf`, and the swatch stage filters with the same `cf`. The palette is the generator applied to the surviving swatches |
| `Extraction.Vibrant.GetPalette` | swiftVibrant/Vibrant.swift:69-74 | returns the pipeline's palette for `src`, caches it in `palette`, and leaves `src` and `opts` unchanged |
| `Building.Builder.constructor` | swiftVibrant/Builder.swift:16-19 | the builder holds the given image and options |
| `Building.Builder.From` | swiftVibrant/Vibrant.swift:28-30 | a fresh builder over the image with the default options |
| `Building.Builder.MaxColorCount` | swiftVibrant/Builder.swift:20-23 | sets colorCount, changes no other field, returns the same builder |
| `Building.Builder.MaxDimension` | swiftVibrant/Builder.swift:25-28 | sets maxDimension to the given value, changes no other field, returns the same builder |
| `Building.Builder.Quality` | swiftVibrant/Builder.swift:30-33 | sets quality, changes no other field, returns the same builder |
| `Building.Builder.AddFilter` | swiftVibrant/Builder.swift:35-38 | the filter list becomes the old list with `f` appended; nothing else changes |
| `Building.Builder.RemoveFilter` | swiftVibrant/Builder.swift:40-45 | the filter list becomes `WithoutId` of the old list: no filter with `f.id` is left, and the list is a subsequence of the old one |
| `Building.Builder.UseGenerator` | swiftVibrant/Builder.swift:47-50 | replaces only the generator, returns the same builder |
| `Building.Builder.UseQuantizer` | swiftVibrant/Builder.swift:52-55 | replaces only the quantizer, returns the same builder |
| `Building.Builder.Build` | swiftVibrant/Builder.swift:57-59 | a fresh `Vibrant` over the builder's image, holding the builder's options with the combined filter filled in; the builder is unchanged |
| `Building.Builder.GetPalette` | swiftVibrant/Builder.swift:60-62 | the pipeline's palette for the builder's image and options |
| `Building.AddThenRemoveRestores` | swiftVibrant/Builder.swift:35-45 | adding a filter with a new identifier and then removing it leaves the options as they were |
| `Building.BuildIsSnapshot` | swiftVibrant/Builder.swift:57-59 | configuring the builder after `build` does not change the built object's options |
| `Filters.WithoutId` | swiftVibrant/Builder.swift:41-43 | no remaining filter has the identifier, and exactly the filters carrying it are gone |
| `Filters.WithoutIdIsSubsequence` | swiftVibrant/Builder.swift:41-43 | the survivors keep their original order |
| `Filters.WithoutIdUnique` | swiftVibrant/Builder.swift:41-43 | any ordered subsequence that avoids the identifier and keeps every other filter equals `WithoutId` |
| `Filters.WithoutIdIdempotent` | swiftVibrant/Builder.swift:40-45 | removing the same identifier twice is removing it once |
| `Filters.WithoutIdAppend` | swiftVibrant/Builder.swift:35-45 | removal distributes over concatenation |
| `Filters.AddThenRemove` | swiftVibrant/Builder.swift:35-45 | appending a filter with a new identifier and then removing that identifier restores the list |
| `Filters.RemoveAll` | swiftVibrant/Builder.swift:41-43 | the single pass of `removeAll(where:)` computes `WithoutId` |

## Left out

- Image decoding (`getImageData`, `makeBytes`, `makeBytesFromCompatibleImage`, `makeBytesFromIncompatibleImage`): these are CoreGraphics calls. Decoding is the opaque function `Platform.decode`. Only the redraw target's bitmap format is modelled, in `RedrawTargetIsCompatible`.
- The resize itself (`scaleImage`'s AppKit drawing) is the opaque function `Platform.resize`. Sizes and factors are exact reals, not rounded CGFloat values. Division by zero quality is modelled as positive infinity.
- The CoreGraphics constant values (`alphaInfoMask`, `byteOrderMask`, `last`, `noneSkipLast`, `byteOrder32Little`) are a parameter record, since the headers that define them are not part of this model.
- The asynchronous `getPalette(_ cb:)` of `Vibrant` and `Builder`: it only hands the synchronous call to a background queue and the result to the main queue.
- The quantizer, the generator, `Filter.combineFilters`, `Filter.defaultFilter`, `Swatch.applyFilter`, and the `Filter`, `Swatch` and `Palette` types are not part of this model. The stages are opaque functions in `Library`. `Filter` is modelled as an identifier plus a predicate on (r, g, b, a), which is all the modelled files use of it. The identifier's type is opaque, with only equality.
- The quantizer receives the options without their two strategy fields (`Tuning`). A Dafny datatype cannot hold a function that takes that datatype.
- Swift's fixed-width `Int` is unbounded here. `width * 4` in `isCompatibleImage` and the loop's `i * 4 + 3` are exact integers. Swift would trap on overflow rather than wrap, and that trap is not modelled.
- `Vibrant.opts` and `src` are internal `var`s that only `init` writes in these files. `Valid()` records the invariant that the combined filter is the snapshot of `opts.filters`, which is what makes the force-unwrap in `process` safe.

## Findings

| source | as written | input that shows it | evidently intended | confidence | as-written member | corrected member |
|---|---|---|---|---|---|---|
| swiftVibrant/Image.swift:37 | `applyFilter` zeroes the alpha of rejected pixels in the copy `pixels`, then returns `imageData`. Swift arrays are values, so the caller gets the decoded bytes unchanged and the pixel filter has no effect | one pixel (10, 20, 30, 255) and a filter that rejects every pixel: the result keeps alpha 255 (in general, any buffer with a rejected pixel of non-zero alpha, by `Images.MaskedUnchangedIff`) | return `pixels`, so rejected pixels reach the quantizer with alpha 0 | not executed | `Images.Image.ApplyFilter` (with `Images.ReturnedBufferIgnoresFilter`) | `Images.Image.ApplyFilterIntended` (with `Images.MaskedPixel`) |

`Extraction.Vibrant.Process` models the code as written. It calls
`ApplyFilter`, so its palette is the one the shipped code computes, and
the quantizer receives the unmasked bytes. `Images.MaskedUnchangedIff`
states in general when that differs from the masked working copy: when
some whole pixel the filter rejects has a non-zero alpha.
`ApplyFilterIntended` is what the buffer loop was written to deliver.
