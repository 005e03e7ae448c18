/**
 * Vibrant.swift: run options, the extraction object and the fixed order of
 * the pipeline stages.
 *
 * The stages themselves (quantizer, generator, filter combinator, swatch
 * filter) and the Swatch and Palette types are not part of this model;
 * they are opaque here and reach the model through a `Library` record.
 */
module Extraction {
  import opened Wrappers
  import opened Filters
  import opened Images

  type Swatch
  type Palette

  /**
   * The options as a quantizer sees them. A Dafny datatype cannot hold a
   * function that takes the datatype itself, so the quantizer is handed
   * the options without the two strategy fields.
   */
  datatype Tuning = Tuning(
    colorCount: int,
    quality: int,
    maxDimension: Option<real>,
    filters: seq<Filter>,
    combinedFilter: Option<Filter>)

  type Quantizer = (seq<byte>, Tuning) -> seq<Swatch>
  type Generator = seq<Swatch> -> Palette

  /** `Vibrant.Options`. */
  datatype Options = Options(
    colorCount: int,
    quality: int,
    quantizer: Quantizer,
    generator: Generator,
    maxDimension: Option<real>,
    filters: seq<Filter>,
    combinedFilter: Option<Filter>)
  {
    /** These options without the strategy fields. */
    function ForQuantizer(): Tuning {
      Tuning(colorCount, quality, maxDimension, filters, combinedFilter)
    }
  }

  /**
   * The collaborators Vibrant.swift calls but does not define:
   * `Quantizer.defaultQuantizer`, `Generator.defaultGenerator`,
   * `Filter.defaultFilter`, `Filter.combineFilters`, `Swatch.applyFilter`,
   * and the platform image services.
   */
  datatype Library = Library(
    defaultQuantizer: Quantizer,
    defaultGenerator: Generator,
    defaultFilter: Filter,
    combineFilters: seq<Filter> -> Filter,
    swatchFilter: (seq<Swatch>, Filter) -> seq<Swatch>,
    platform: Platform)

  /** `Options()`: the default configuration. */
  function DefaultOptions(lib: Library): (o: Options)
    ensures o.colorCount == 64 && o.quality == 5 && o.maxDimension == None
    ensures o.quantizer == lib.defaultQuantizer && o.generator == lib.defaultGenerator
    ensures o.filters == [lib.defaultFilter] && o.combinedFilter == None
  {
    Options(64, 5, lib.defaultQuantizer, lib.defaultGenerator, None, [lib.defaultFilter], None)
  }

  /** `opts` with the combined filter recomputed from its own filter list. */
  function WithCombinedFilter(opts: Options, lib: Library): Options {
    opts.(combinedFilter := Some(lib.combineFilters(opts.filters)))
  }

  /** The buffer the quantizer receives: the decoded bytes of the scaled image, or []. */
  function QuantizerInput(src: NativeImage, opts: Options, lib: Library): seq<byte> {
    DecodedOrEmpty(lib.platform.decode(Scaled(src, opts.maxDimension, opts.quality, lib.platform)))
  }

  /**
   * What `process` returns from the unscaled image `src`: scale, filter the
   * pixels, quantize, filter the swatches with the same combined filter,
   * generate.
   */
  function Pipeline(src: NativeImage, opts: Options, lib: Library): Palette
    requires opts.combinedFilter.Some?
  {
    var cf := opts.combinedFilter.value;
    opts.generator(lib.swatchFilter(opts.quantizer(QuantizerInput(src, opts, lib), opts.ForQuantizer()), cf))
  }

  class Vibrant {
    var opts: Options
    var src: NativeImage
    /** `_palette`, read through the `palette` property. */
    var palette: Option<Palette>
    const lib: Library

    /** The combined filter is the snapshot of the filter list taken at construction. */
    ghost predicate Valid()
      reads this
    {
      opts.combinedFilter == Some(lib.combineFilters(opts.filters))
    }

    /** `init(src:opts:)`. */
    constructor (src: NativeImage, opts: Option<Options>, lib: Library)
      ensures Valid()
      ensures this.src == src && this.lib == lib && this.palette == None
      ensures opts.Some? ==> this.opts == WithCombinedFilter(opts.value, lib)
      ensures opts.None? ==> this.opts == WithCombinedFilter(DefaultOptions(lib), lib)
    {
      this.src := src;
      this.lib := lib;
      this.palette := None;
      var o := if opts.Some? then opts.value else DefaultOptions(lib);
      this.opts := o.(combinedFilter := Some(lib.combineFilters(o.filters)));
    }

    /** `process(image:opts:)`: the stages in their fixed order; `image` is scaled in place. */
    static method Process(image: Image, opts: Options, lib: Library) returns (p: Palette, ghost working: seq<byte>)
      requires opts.combinedFilter.Some?
      modifies image
      ensures image.image == Scaled(old(image.image), opts.maxDimension, opts.quality, lib.platform)
      ensures p == Pipeline(old(image.image), opts, lib)
      ensures working == Masked(QuantizerInput(old(image.image), opts, lib), opts.combinedFilter.value)
    {
      var quantizer := opts.quantizer;
      var generator := opts.generator;
      var combinedFilter := opts.combinedFilter.value;
      var maxDimension := opts.maxDimension;

      image.ScaleTo(maxDimension, opts.quality, lib.platform);

      var imageData;
      imageData, working := image.ApplyFilter(combinedFilter, lib.platform);
      var swatches := quantizer(imageData, opts.ForQuantizer());
      var colors := lib.swatchFilter(swatches, combinedFilter);
      p := generator(colors);
    }

    /** `getPalette()`: run the pipeline on a fresh wrapper of `src` and cache the result. */
    method GetPalette() returns (p: Palette)
      requires Valid()
      modifies this`palette
      ensures Valid()
      ensures p == Pipeline(src, opts, lib)
      ensures palette == Some(p)
      ensures src == old(src) && opts == old(opts)
    {
      var image := new Image(src);
      ghost var working;
      p, working := Process(image, opts, lib);
      palette := Some(p);
    }
  }
}
