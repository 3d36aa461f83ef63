# TimeSide grapher core in Dafny

This project models the rendering core of TimeSide's `grapher/core.py`. That code turns audio into two pictures:

- **Waveform image.** For each output column, the chunk of samples there gives a pair of (min, max) peaks in temporal order. The two peaks become two y coordinates. The column's spectral centroid picks a colour from a 256-entry palette. The end points are anti-aliased by blending the colour into the neighbouring rows of a mutable pixel grid. A cursor advances one column per chunk until the image width is reached. On save, the centre row is brightened.
- **Spectrogram image.** A table, built once, maps each image row to an FFT bin and an interpolation weight. Each spectrum then appends one column of palette indices to a flat buffer.

Two further pieces are modelled:

- **Palette builder** (`interpolate_colors`). It expands a few RGB anchors into a palette by piecewise-linear interpolation, using the named colour schemes.
- **`Noise`**. A stand-in for a sound file. It hands out random samples, keeps a read position, and can be built with a "broken header" that makes reads fail past half of the file.

Modules:

- `Common` (common.dfy): `Option` and `Result`, and `Trunc`, which is Python's `int()` on a float (truncation toward zero).
- `Color` (color.dfy): RGB triples and the blend rule `int((1-a)*p + a*c)`.
- `Palette` (palette.dfy): the colour schemes and `interpolate_colors`.
- `Waveform` (waveform.dfy): `peaks`, the anti-aliasing targets, and the class `WaveformImage` over an `array2` pixel grid.
- `Spectrogram` (spectrogram.dfy): the row-to-bin table and the `SpectrogramImage` class.
- `Noise` (noise.dfy): the `Noise` reader, specified by the pure step function `ReadStep`.

Modelling choices:

- Floats are exact reals.
- Python 2 integer division (`58/4`, `fft_size/2`, `image_height/2`, `num_frames/2`) is floor division. It agrees with Dafny's `/` because every divisor here is positive.
- The exceptions of `interpolate_colors` and `Noise.read_frames` are error values of a `Result`. Where a raise comes from an index into the imaging library's pixel grid or into a spectrum, the model has an exact precondition instead. The palette lookup of a column's centroid is the exception: its precondition is an assumption about the analyzer, listed under "## Left out".

A silent column (both peaks 0) sits at y = `image_height*0.5`. On an even height nothing is blended. On an odd height of at least 3, rows `h/2+1` and `h/2-1` are blended at weight 0.5 (`Waveform.SilentColumnTargets`).

## Model

| member | source | states |
|---|---|---|
| Common.Trunc | grapher/core.py:108 | `int()` of a float truncates toward zero: for non-negative x the result r satisfies r <= x < r+1, and for negative x it satisfies r-1 < x <= r |
| Common.LerpTruncBetween | grapher/core.py:112-114 | a convex mix `(1-a)*p + a*c` with a in [0,1], truncated, lies between p and c |
| Color.Blend | grapher/core.py:209-211 | every channel of a blended pixel lies between the old pixel's channel and the colour's channel |
| Color.BlendInByteRange | grapher/core.py:209-211 | blending two byte-range colours gives a byte-range colour |
| Palette.WaveformAnchors | grapher/core.py:34-50 | each scheme has four waveform anchors in byte range |
| Palette.NoSchemeIsDefault | grapher/core.py:144-146 | giving no scheme name selects the `'default'` scheme, for both the waveform and the spectrogram anchors |
| Palette.SpectrogramAnchors | grapher/core.py:37-38 | the seven spectrogram anchors are byte-range colours, with the Python 2 integer divisions evaluated |
| Palette.Position | grapher/core.py:107 | the fractional anchor position of entry i; its range is stated by `PositionBounds` |
| Palette.Scale | grapher/core.py:116-118 | the non-blending branch `int((1-alpha)*c)`; `PaletteEndpoints` shows that it returns the anchor itself at both ends |
| Palette.Entry | grapher/core.py:107-118 | entry i of the palette; `EntryCases` states its two branches, and `PaletteChannelBetween` bounds its channels |
| Palette.PositionBounds | grapher/core.py:107 | the position `i*(len-1)/(n-1.0)` lies in [0, len-1]; it is 0 for the first entry and len-1 for the last; a position with a fractional part has an anchor after it |
| Palette.EntryCases | grapher/core.py:107-118 | the truncated position indexes an anchor, and in the blending branch (`alpha > 0`) `index_int + 1` indexes one too, so the code never reads past the end |
| Palette.PaletteEntries | grapher/core.py:106 | the palette has exactly `num_colors` entries, or none when `num_colors <= 0` |
| Palette.Flatten | grapher/core.py:120-121 | the flat form has three values per entry |
| Palette.FlattenAt | grapher/core.py:120-123 | value `3*i+k` of the flat form is channel k of entry i |
| Palette.InterpolateColors | grapher/core.py:98-125 | raises `ZeroDivisionError` iff `num_colors == 1`; raises `IndexError` iff `num_colors >= 2` and there are no anchors; otherwise returns the entries as triples, or flattened when `flat`, with nothing returned for `num_colors <= 0` |
| Palette.PaletteEndpoints | grapher/core.py:104-125 | entry 0 is the first anchor and entry `num_colors-1` is the last anchor |
| Palette.PaletteChannelBetween | grapher/core.py:107-118 | each channel of entry i lies between the channels of the two anchors it interpolates |
| Palette.PaletteInByteRange | grapher/core.py:104-125 | byte-range anchors give a byte-range palette |
| Waveform.ArgMax | grapher/core.py:166 | `numpy.argmax`: an index of the maximum, with every earlier sample strictly smaller (first occurrence) |
| Waveform.ArgMin | grapher/core.py:169 | `numpy.argmin`: an index of the minimum, with every earlier sample strictly larger (first occurrence) |
| Waveform.SeqMax | grapher/core.py:166-167 | reference maximum: a member of the chunk and no smaller than any sample |
| Waveform.SeqMin | grapher/core.py:169-170 | reference minimum: a member of the chunk and no larger than any sample |
| Waveform.FirstIndex | grapher/core.py:166-170 | the first position holding a value |
| Waveform.ArgMaxIsFirstMax | grapher/core.py:166-167 | argmax is the first occurrence of the reference maximum |
| Waveform.ArgMinIsFirstMin | grapher/core.py:169-170 | argmin is the first occurrence of the reference minimum |
| Waveform.Peaks | grapher/core.py:161-175 | `peaks`; `PeaksOrder` and `PeaksOfConstant` state what it returns |
| Waveform.PeaksOrder | grapher/core.py:161-175 | `peaks` returns (min, max) when the minimum first occurs before the maximum, and (max, min) otherwise |
| Waveform.PeaksOfConstant | grapher/core.py:161-175 | a constant chunk yields (v, v) |
| Waveform.YCoord | grapher/core.py:185-186 | the y coordinate of a peak; `YCoordBounds` bounds it, and `SilentColumnTargets` evaluates it at 0 |
| Waveform.YCoordBounds | grapher/core.py:185-186 | a peak in [-1,1] maps to a y between rows 2 and h-2 |
| Waveform.PaletteIndex | grapher/core.py:188 | `int(centroid*255.0)` for a centroid in [0,1] is a palette slot in [0,255], the floor of `centroid*255` |
| Waveform.LineColor | grapher/core.py:188 | `color_lookup[int(c*255.0)]`; `PaletteIndex` shows that the index is a slot of the 256-entry lookup |
| Waveform.MaxTarget | grapher/core.py:202-213 | the blend next to the larger y happens iff that y is positive, non-integral and its row `int(y)+1` is below the image height; its weight is the fractional part, strictly inside (0,1) |
| Waveform.MinTarget | grapher/core.py:215-226 | the blend next to the smaller y happens iff that y is non-integral and above 1; it goes to row `int(y)-1` with weight one minus the fractional part |
| Waveform.TargetsApart | grapher/core.py:202-226 | the two blended rows are at least two apart, so the second blend never reads the pixel the first wrote |
| Waveform.AntiAliasCell | grapher/core.py:199-226 | row j of the drawn column after anti-aliasing; `AntiAliasCellChange` and `IntegralCoordinatesNoBlend` state what changes |
| Waveform.AntiAliasCellChange | grapher/core.py:199-226 | a cell of the drawn column changes only at one of the two target rows, and each channel stays between the old channel and the colour's |
| Waveform.IntegralCoordinatesNoBlend | grapher/core.py:202-226 | integral y coordinates change no pixel |
| Waveform.SilentColumnTargets | grapher/core.py:185-186 | for a silent column (both peaks 0) an even height blends nothing, and an odd height of at least 3 blends rows h/2+1 and h/2-1 with weight 0.5 |
| Waveform.NormalisedChunkDrawable | grapher/core.py:215-226 | with samples in [-1,1] and at least one row, the unguarded row `int(min(y1,y2))-1` is inside the image, so every column can be drawn |
| Waveform.WaveformImage.constructor | grapher/core.py:130-159 | requires `image_width > 0`; the grid is `image_width` by `image_height` and filled with the background colour (black when none is given); the lookup is the 256-entry waveform palette of the scheme; no previous point; cursor 0 |
| Waveform.WaveformImage.DrawAntiAliasedPixels | grapher/core.py:199-226 | only column x changes, and each of its cells becomes its anti-aliased value |
| Waveform.WaveformImage.DrawPeaks | grapher/core.py:182-197 | records `(previous_x, previous_y) = (x, y2)`, leaves the cursor alone, and anti-aliases column x with the palette colour of the centroid |
| Waveform.WaveformImage.Process | grapher/core.py:236-243 | the cursor ends at `min(cursor + chunks, image_width)`, and surplus chunks are ignored; chunk k is drawn at column `cursor + k`; the previous point is that of the last drawn column; columns outside the drawn range are unchanged |
| Waveform.Brighten | grapher/core.py:248 | adds the offset to each channel; `WaveformImage.Save` applies it to exactly the centre row |
| Waveform.WaveformImage.Save | grapher/core.py:245-248 | every pixel of row `image_height/2` gets 25 added to each channel, and nothing else changes |
| Spectrogram.MapRow | grapher/core.py:281-283 | the entry of bin position b is `(int(b), 255*frac(b))`; its index is `floor(b)` and its weight lies in [0,255) |
| Spectrogram.BinTable | grapher/core.py:276-283 | the table has at most one entry per row, and every entry satisfies `index + 1 <= fft_size/2` with its weight in [0,255) |
| Spectrogram.BinTableOfNonDecreasing | grapher/core.py:276-283 | for rising bin positions, entry k belongs to row k, the rows without an entry are exactly the top rows past `fft_size/2`, and the indices never decrease |
| Spectrogram.Intensity | grapher/core.py:292 | the value of a mapped row; `IntensityInRange` bounds it |
| Spectrogram.MixBounds | grapher/core.py:292 | the weights `255-alpha` and `alpha` sum to 255, so bin values in [0,1] mix to a value in [0,255] |
| Spectrogram.IntensityInRange | grapher/core.py:292 | a mapped row's value is a palette index in [0,255] when the spectrum is in [0,1] |
| Spectrogram.AnalyzerSpectrumReadable | grapher/core.py:78 | a spectrum of `fft_size/2 + 1` values is long enough for `spectrum[index + 1]` of every table entry |
| Spectrogram.SpectrumColumn | grapher/core.py:290-295 | the values one `draw_spectrum` appends; `ColumnAt` and `ColumnShape` state their length and contents |
| Spectrogram.ColumnAt | grapher/core.py:290-295 | a column has `image_height` values: the intensity of entry k at row k, and 0 from `len(y_to_bin)` on |
| Spectrogram.ColumnShape | grapher/core.py:290-295 | a column has `image_height` values, zeros past the table, and palette indices in [0,255] elsewhere |
| Spectrogram.RenderLength | grapher/core.py:290-295 | after W columns the buffer holds `W * image_height` values |
| Spectrogram.RenderAt | grapher/core.py:290-299 | value `x*image_height + y` of the buffer is row y of column x, the layout the final rotation turns into the image |
| Spectrogram.SpectrogramImage.constructor | grapher/core.py:253-288 | the table is the one built from the row bin positions; the palette is the flat 256-entry spectrogram palette; the buffer is empty and nothing has been drawn |
| Spectrogram.SpectrogramImage.DrawSpectrum | grapher/core.py:290-295 | appends exactly the column of the spectrum (`image_height` values) and records the spectrum as drawn; the buffer stays the rendering of the drawn spectra, so `RenderLength` and `RenderAt` give its length and layout |
| Noise.ReadStep | grapher/core.py:348-357 | one `read_frames(n)`; `ReadBrokenHeader`, `ReadClamps`, `BrokenReadStopsAtHalf`, `NegativeCountMovesBack` and `SequentialReads` state its behaviour |
| Noise.Samples | grapher/core.py:358 | a read of n frames returns n samples |
| Noise.SamplesInRange | grapher/core.py:358 | `random()*2 - 1` of draws in [0,1) lies in [-1,1) |
| Noise.ReadBrokenHeader | grapher/core.py:348-350 | a read raises `IOError` iff the header is broken and the read would end past `num_frames/2`, and then the position stays put |
| Noise.ReadClamps | grapher/core.py:351-357 | from a position inside the file, a non-failing read of n >= 0 returns `min(n, frames left)` samples, advances the position by that many, and never passes the end |
| Noise.BrokenReadStopsAtHalf | grapher/core.py:348-357 | a read that succeeds on a broken file ends at or before `num_frames/2` |
| Noise.NegativeCountMovesBack | grapher/core.py:352-358 | a negative count, or a position past the end, raises `ValueError` only after the position has moved back, by exactly `min(n, num_frames - seekpoint)` |
| Noise.SequentialReads | grapher/core.py:348-357 | on a sound file, k reads of n frames from position p end at `min(p + k*n, num_frames)` |
| Noise.Noise.constructor | grapher/core.py:331-334 | the reader starts at position 0 with the given length and header flag |
| Noise.Noise.Seek | grapher/core.py:336-337 | any position is accepted |
| Noise.Noise.GetNframes | grapher/core.py:339-340 | the length the reader was built with |
| Noise.Noise.GetSamplerate | grapher/core.py:342-343 | always 44100 |
| Noise.Noise.GetChannels | grapher/core.py:345-346 | always mono |
| Noise.Noise.ReadFrames | grapher/core.py:348-358 | the new position and the error or sample count are those of `ReadStep`; the samples are `2u - 1` of the supplied draws and lie in [-1,1) |

## Left out

- `SpectralCentroid` (grapher/core.py:53-95): an FFT, `log10` and clipping in floating point. The centroid is an input in [0,1] per chunk. The spectrum is an input sequence.
- The frequency-to-bin computation with `math.pow` and `math.log10` (grapher/core.py:272-278): the per-row bin positions are given as non-negative reals. Its division by zero for `image_height == 1` is left out with it.
- `color_from_value` (grapher/core.py:177-180): a wrapper around the imaging library's colour parser.
- The line rasterised by `self.draw.line` (grapher/core.py:190-193): the grid holds only the background, the anti-aliasing blends and the brightened centre row.
- `Image.new`, `putpalette`, `putdata`, the 90-degree rotation and `save` (grapher/core.py:154, 260, 268, 297-299, 249): image creation and encoding in the imaging library. The spectrogram palette and pixel buffer are kept as sequences.
- `FixedSizeInputAdapter` and the numpy reshaping at the top of `process` (grapher/core.py:229-236): the adapter's code is not part of this model, and its output is an abstract sequence of chunks.
- `create_spectrogram_png` (grapher/core.py:302-324): file I/O, progress output and the external `AudioProcessor`.
- The random values of `numpy.random.random` (grapher/core.py:358): they are a parameter `uniform` of draws in [0,1), of which a read uses the first `will_read`.
- Unknown colour-scheme names, which raise `KeyError`: the scheme is an enumeration, so they cannot be expressed.
- Waveform.Peaks: an empty chunk, on which `numpy.argmax` raises, is excluded by a precondition. NaN samples are not modelled.
- Waveform.WaveformImage.constructor: an `image_width` of 0 raises `ZeroDivisionError` at `self.nframes / float(self.image_width)` (grapher/core.py:149) before anything is drawn; the model requires `image_width > 0` instead of building an object. The parameters `nframes`, `samplerate`, `buffer_size` and `filename` are not taken: they only configure the input adapter and the spectral-centroid analyzer (grapher/core.py:149-152), whose code is not part of this model.
- Waveform.PaletteIndex: the centroid is required to lie in [0,1], the range the analyzer promises. This is narrower than what the list index `color_lookup[int(c*255.0)]` accepts: any `int(c*255.0)` in [-256, 255] works, since negative indices count from the end. The same requirement is on `LineColor`, `WaveformImage.DrawPeaks` and `WaveformImage.Process`.
- Waveform.WaveformImage.Save: channel values above 255 after brightening are kept as integers; the imaging library's handling of them is not modelled.
- Waveform.WaveformImage.DrawAntiAliasedPixels: the row `int(min(y1,y2))-1` is not guarded against the image height in the source. A write outside the image raises in the imaging library. The model requires the row to be inside, and `NormalisedChunkDrawable` shows that normalised samples always satisfy this.
- Spectrogram.SpectrogramImage.DrawSpectrum: a spectrum too short for `spectrum[index + 1]` raises `IndexError` in the source; the model requires it to be long enough (`AnalyzerSpectrumReadable`).
- Spectrogram.SpectrogramImage.constructor: the ignored `bg_color` argument is not a parameter.
- Noise.Noise.ReadFrames: the supplied draws must cover `frames_to_read`, a requirement on the random parameter rather than on the caller.
- Floating-point rounding: every `int()` truncation (`Palette.Entry`, `Color.Blend`, `Spectrogram.Intensity`, `Waveform.PaletteIndex`) is taken on the exact real value. In IEEE arithmetic a sum whose exact value is an integer can land just below it, for example `(1-a)*255 + a*255`. There the source truncates to one less than the model.
- The `Noise.seekpoint` and the image sizes are unbounded integers; Python 2 promotes to long integers, so no wrap-around exists to model.
