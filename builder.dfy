/**
 * Builder.swift: the fluent configuration object. Every configuration
 * method changes one field of the options it holds and returns the builder
 * itself; `build` hands a copy of the options to a new `Vibrant`.
 */
module Building {
  import opened Wrappers
  import opened Filters
  import opened Images
  import opened Extraction

  class Builder {
    var src: NativeImage
    var opts: Options
    const lib: Library

    /** `init(_:_:)`. */
    constructor (src: NativeImage, opts: Options, lib: Library)
      ensures this.src == src && this.opts == opts && this.lib == lib
    {
      this.src := src;
      this.opts := opts;
      this.lib := lib;
    }

    /** `Vibrant.from(_:)`: a builder over `src` with the default options. */
    static method From(src: NativeImage, lib: Library) returns (b: Builder)
      ensures fresh(b)
      ensures b.src == src && b.opts == DefaultOptions(lib) && b.lib == lib
    {
      b := new Builder(src, DefaultOptions(lib), lib);
    }

    /** `maxColorCount(_:)`. */
    method MaxColorCount(n: int) returns (b: Builder)
      modifies this`opts
      ensures b == this
      ensures opts == old(opts).(colorCount := n)
    {
      opts := opts.(colorCount := n);
      return this;
    }

    /** `maxDimension(_:)`. */
    method MaxDimension(d: real) returns (b: Builder)
      modifies this`opts
      ensures b == this
      ensures opts == old(opts).(maxDimension := Some(d))
    {
      opts := opts.(maxDimension := Some(d));
      return this;
    }

    /** `quality(_:)`. */
    method Quality(q: int) returns (b: Builder)
      modifies this`opts
      ensures b == this
      ensures opts == old(opts).(quality := q)
    {
      opts := opts.(quality := q);
      return this;
    }

    /** `addFilter(_:)`: append to the filter list. */
    method AddFilter(f: Filter) returns (b: Builder)
      modifies this`opts
      ensures b == this
      ensures opts == old(opts).(filters := old(opts.filters) + [f])
    {
      opts := opts.(filters := opts.filters + [f]);
      return this;
    }

    /** `removeFilter(_:)`: drop every filter with the identifier of `f`. */
    method RemoveFilter(f: Filter) returns (b: Builder)
      modifies this`opts
      ensures b == this
      ensures opts == old(opts).(filters := WithoutId(old(opts.filters), f.id))
      ensures FreeOf(opts.filters, f.id) && IsSubsequence(opts.filters, old(opts.filters))
    {
      var kept := RemoveAll(opts.filters, f.id);
      WithoutIdIsSubsequence(opts.filters, f.id);
      opts := opts.(filters := kept);
      return this;
    }

    /** `useGenerator(_:)`. */
    method UseGenerator(generator: Generator) returns (b: Builder)
      modifies this`opts
      ensures b == this
      ensures opts == old(opts).(generator := generator)
    {
      opts := opts.(generator := generator);
      return this;
    }

    /** `useQuantizer(_:)`. */
    method UseQuantizer(quantizer: Quantizer) returns (b: Builder)
      modifies this`opts
      ensures b == this
      ensures opts == old(opts).(quantizer := quantizer)
    {
      opts := opts.(quantizer := quantizer);
      return this;
    }

    /** `build()`: a new extraction over a copy of the current options; the builder is not changed. */
    method Build() returns (v: Vibrant)
      ensures fresh(v) && v.Valid()
      ensures v.src == src && v.lib == lib && v.palette == None
      ensures v.opts == WithCombinedFilter(opts, lib)
    {
      v := new Vibrant(src, Some(opts), lib);
    }

    /** `getPalette()`: build and run once. */
    method GetPalette() returns (p: Palette)
      ensures p == Pipeline(src, WithCombinedFilter(opts, lib), lib)
    {
      var v := Build();
      p := v.GetPalette();
    }
  }

  /**
   * Adding a filter whose identifier is new and then removing it by that
   * identifier leaves the builder's options as they were.
   */
  method AddThenRemoveRestores(b: Builder, f: Filter)
    requires FreeOf(b.opts.filters, f.id)
    modifies b
    ensures b.opts == old(b.opts)
  {
    var b1 := b.AddFilter(f);
    var b2 := b1.RemoveFilter(f);
    AddThenRemove(old(b.opts.filters), f);
  }

  /**
   * A built `Vibrant` holds a snapshot: configuring the builder afterwards
   * does not change its options or its combined filter.
   */
  method BuildIsSnapshot(b: Builder, f: Filter) returns (v: Vibrant)
    modifies b
    ensures fresh(v)
    ensures v.opts == WithCombinedFilter(old(b.opts), b.lib)
    ensures b.opts == old(b.opts).(filters := old(b.opts.filters) + [f])
  {
    v := b.Build();
    var b1 := b.AddFilter(f);
  }
}
