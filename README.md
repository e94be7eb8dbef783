# stm32lib display, sensor, GPIO and USB-CDC drivers in Dafny

This project models the core of the stm32lib library for STM32F4 boards:

- the SSD1306 monochrome OLED driver: a packed 128x64 framebuffer of eight pages, drawn into and flushed over I2C;
- the SSD1331 colour OLED driver: every pixel sent over SPI as one framed window-and-colour transfer, with the D/C pin selecting commands or data;
- their shared text renderer: UTF-8 strings are decoded, a font is picked from a font set, and ASCII, GFX and combining Hangul glyphs are drawn;
- the Hangul glyph composer: initial, medial and final parts are chosen by variant group and ORed into a 32-byte scratch glyph;
- the UTF-8 to Latin-1 filter;
- the GPIO helper layer: pin numbers, usage masks, and the PUPDR, BSRR, ODR and IDR accesses;
- the HD44780 character LCD driver in 4-bit mode;
- the MPU6050 accelerometer/gyroscope driver, over hardware I2C (stm32lib) and over bit-banged I2C (the swi2ctest example);
- the USB CDC to UART bridge of the usbcdc_f446 example: line coding, a Tx ring drained by a timer, and an Rx ring filled from USB packets.

Files and modules:

- `ints.dfy` (`Ints`) gives C integer conversions and small arithmetic facts.
- `plane.dfy` (`Plane`) is the SSD1306 page layout.
- `raster.dfy` (`Raster`) holds the drawing algorithms as point sequences. Both display drivers share them: drawline with its clamp and error walk, rectangles, the triangle DDA, and the midpoint circle.
- `fonts.dfy` (`Fonts`) is the font model of font.h.
- `text.dfy` (`Text`) covers glyph ink, the UTF-8 decoding of puts, the font search and the cursor walk.
- `hangul.dfy` (`Hangul`) is hangulfont.c.
- `ssd1306.dfy` (`Ssd1306`) and `ssd1331.dfy` (`Ssd1331`) are the two display drivers as classes whose methods update the buffer or bus trace.
- The remaining files are the other drivers:
  - `gpio.dfy` (`Gpio`);
  - `clcd.dfy` (`Clcd`);
  - `mpu6050.dfy` (`Mpu6050`);
  - `usbcdc.dfy` (`UsbCdc`).

Each imperative driver is a Dafny class whose methods change its fields. Each method's postcondition ties the new state to a specification function of the old state. The specification functions carry the lemmas. For the displays, one method per drawing primitive states that the framebuffer (SSD1306) or the SPI frame trace (SSD1331) becomes that of painting the primitive's point sequence. The point sequences are characterised by lemmas: exact rectangles, endpoints, the bounding box, 8-connectedness and circle-in-disc.

## Model

| member | source | states |
|---|---|---|
| Ints.U16 | stm32lib/ssd1306.c:147 | conversion to uint16_t lands in 0..65535 and keeps every value already in range |
| Ints.I16 | stm32lib/ssd1306.c:530-536 | conversion to int16_t lands in -32768..32767 and keeps every value already in range |
| Ints.CDiv | stm32lib/ssd1306.c:347 | C division truncates toward zero: equals Euclidean division for a non-negative dividend, its negation for a non-positive one |
| Plane.IndexShared | stm32lib/ssd1306.c:164 | two pixels share a buffer byte exactly when they share the column and the 8-row page |
| Plane.PaintEffect | stm32lib/ssd1306.c:147-168 | after drawpixel at p the pixel p has the drawn colour and every other pixel of the plane is unchanged |
| Plane.PaintTouchesOneBit | stm32lib/ssd1306.c:163-167 | drawpixel changes only bit y%8 of byte x + (y/8)*128; every other byte and bit is kept |
| Plane.PaintPtsEffect | stm32lib/ssd1306.c:147-168 | after drawpixel on every point of a list, a pixel has the drawn colour iff it is in the list, else its old state |
| Plane.PaintPtsAppend | stm32lib/ssd1306.c:429-433 | drawing a concatenation of point lists is drawing the parts one after the other |
| Plane.ComplementedInvolution | stm32lib/ssd1306.c:128-139 | inverting the memory twice restores it, and one inversion flips every pixel |
| Plane.FilledPixels | stm32lib/ssd1306.c:141-145 | a black fill clears every pixel and a white fill sets every pixel |
| Raster.Clamp | stm32lib/ssd1306.c:330-341 | a coordinate below the limit is kept, one at or past it becomes limit-1 |
| Raster.Column | stm32lib/ssd1306.c:362-365 | the vertical run is the points of the column from y0 to y1 inclusive, top to bottom |
| Raster.Row | stm32lib/ssd1306.c:384-387 | the horizontal run is the points of the row from x0 to x1 inclusive, left to right |
| Raster.StepKeeps | stm32lib/ssd1306.c:393-407 | one pass of the error walk keeps the walk invariant, strictly shrinks the remaining distance and moves by at most one on each axis |
| Raster.WalkEnds | stm32lib/ssd1306.c:393-407 | the walk starts at the current point and its last point is exactly the target (the loop terminates there) |
| Raster.WalkBox | stm32lib/ssd1306.c:393-407 | every point of the walk lies between the current point and the target on both axes |
| Raster.WalkConnected | stm32lib/ssd1306.c:393-407 | consecutive points of the walk are 8-neighbours |
| Raster.LineEndpoints | stm32lib/ssd1306.c:325-408 | drawline always draws both clamped endpoints |
| Raster.LineInBox | stm32lib/ssd1306.c:325-408 | every point drawline draws lies in the bounding box of the clamped endpoints, hence on the panel |
| Raster.LineAxisSpan | stm32lib/ssd1306.c:349-391 | a vertical or horizontal line draws exactly the inclusive span between its clamped endpoints, in either argument order |
| Raster.LineDependsOnDirection | stm32lib/ssd1306.c:393-407 | the walk is not symmetric: (0,0)->(2,1) draws (1,0) in the middle and (2,1)->(0,0) draws (1,1) |
| Raster.ExtentClamp | stm32lib/ssd1306.c:421-427 | the width or height cut at the edge reaches min(pos+len, limit-1) once drawline clamps it |
| Raster.SidesOutline | stm32lib/ssd1306.c:429-433 | the four drawline calls cover exactly the border of the clamped box |
| Raster.RectOutline | stm32lib/ssd1306.c:410-434 | drawrectangle draws nothing with its origin off the panel, else exactly the border of the box from (x,y) to (min(x+w,W-1), min(y+h,H-1)) |
| Raster.FillRectExact | stm32lib/ssd1306.c:436-462 | fillrectangle draws nothing with its origin off the panel, else exactly the pixels of the box from (x,y) to (min(x+w,W-1), min(y+h,H-1)) |
| Raster.TriangleCorners | stm32lib/ssd1306.c:464-470 | drawtriangle draws all three clamped corners and nothing off the panel |
| Raster.TriangleSweep | stm32lib/ssd1306.c:479-527 | filltriangle makes max(\|dx\|,\|dy\|)+1 passes, the first chord from corner 1, the last from corner 2, start i at the closed form of i major steps and floor((num0+i*numadd)/den) minor steps |
| Raster.LastChord | stm32lib/ssd1306.c:500-527 | the closed form of the last pass is corner 2 exactly |
| Raster.FillTriangleCorners | stm32lib/ssd1306.c:473-528 | filltriangle draws all three clamped corners and nothing off the panel |
| Raster.MidKeeps | stm32lib/ssd1306.c:554-561 | one midpoint pass keeps the invariant (ddF_x = 2x+1, ddF_y = -2y, f bounded), moves x right by one, moves y down by one exactly when f >= 0, and every int16 value stored fits |
| Raster.MidStepsShape | stm32lib/ssd1306.c:532-563 | the computed points start at (0, r), each next one is one column right and at most one row lower, and all satisfy 0 <= x <= y |
| Raster.OctantsHalves | stm32lib/ssd1306.c:544-552 | the eight plotted points are the four axis reflections of (x,y) followed by those of (y,x) |
| Raster.CircleOfRadiusZero | stm32lib/ssd1306.c:530-564 | a circle of radius 0 plots only its centre, eight times |
| Raster.StrokeHasReflections | stm32lib/ssd1306.c:543-552 | all eight reflections of every computed point are plotted |
| Raster.StrokeWithinChords | stm32lib/ssd1306.c:580-585 | every on-panel point of the circle's stroke is an endpoint of one of the four chords of its pass |
| Raster.CircleWithinDisc | stm32lib/ssd1306.c:566-596 | every panel pixel drawcircle plots is also drawn by fillcircle with the same arguments |
| Text.MsbBitMeaning | stm32lib/ssd1306.c:265 | testing (b << j) & 0x80 reads column j as bit 7-j of the byte |
| Text.AsciiInk | stm32lib/ssd1306.c:191-204 | the ASCII glyph is height rows of width columns, unshifted, row i column j being bit 15-j of row word i (most significant bit first) |
| Text.GfxInk | stm32lib/ssd1306.c:218-251 | the GFX glyph is its own height x width box, shifted by its xOffset |
| Text.HangulInk | stm32lib/ssd1306.c:253-277 | the Hangul glyph is height rows of width/8 bytes, eight columns per byte |
| Text.InkRowsMember | stm32lib/ssd1306.c:192-204 | the points drawn for a glyph are exactly the cells of its set ink bits: nothing for a clear bit and no set bit skipped |
| Text.GlyphPlacement | stm32lib/ssd1306.c:181-188 | putc draws nothing when the cell overflows the panel, and otherwise only panel pixels inside the cell from the cursor to (cx+size*width, cy+size*height) |
| Text.Utf16 | stm32lib/ssd1306.c:301 | the three-byte form yields a 16-bit code point |
| Text.EncodeThree | stm32lib/ssd1306.c:293-302 | a code point from U+0800 on encodes (RFC 3629 section 3) as a lead byte and two non-NUL bytes that the three-byte form decodes back |
| Text.DecodeEncoded | stm32lib/ssd1306.c:288-302 | puts decodes the UTF-8 encoding of any string of one-byte (non-NUL) and three-byte code points back to that string |
| Text.TwoByteFormNotDecoded | stm32lib/ssd1306.c:293-302 | there is no two-byte form: C3 A9 41 decodes to the single code point U+3A41 |
| Text.DecodeNext | stm32lib/ssd1306.c:289-302 | one decoding pass consumes one byte up to 0x7F or three bytes otherwise and yields the next code point of the decoding |
| Text.PickFrom | stm32lib/ssd1306.c:309-316 | the chosen font covers the code point and no earlier font does; none is chosen only when no font covers it |
| Text.PickedFontReadable | stm32lib/ssd1306.c:309-316 | the font picked for a code point of a readable set can draw that code point |
| Text.FindFont | stm32lib/ssd1306.c:309-316 | the search loop returns the first covering font of the list |
| Text.UnitStepGlyph | stm32lib/ssd1306.c:309-316 | a covered code point draws its glyph at the pen with the first covering font, then the pen moves one cell of that font right |
| Text.RunSnoc | stm32lib/ssd1306.c:288-318 | each further code point of puts continues from where the earlier ones left the cursor |
| Text.LineAdvance | stm32lib/ssd1306.c:309-316 | on a line without newlines the cursor stays on its row and moves right by size*width of each covering font, drawn or not, modulo 2^16 |
| Text.NewlineReturns | stm32lib/ssd1306.c:303-306 | after a newline the cursor is back at the starting column, one line of the font set lower |
| Hangul.SplitJoin | stm32lib/hangulfont.c:56-64 | the split gives back the offset through the composition formula; medial in 1..21, final in 0..27, initial 1..19 for syllables |
| Hangul.JoinSplit | stm32lib/hangulfont.c:56-64 | every initial/medial/final triple is the split of exactly one syllable offset |
| Hangul.ChooseGroups | stm32lib/hangulfont.c:98-110 | without a final the initial group is 0..4 and the medial group 0 or 1; with a final 5..7, 2 or 3, and final group 0..3 |
| Hangul.SplitInitial | stm32lib/hangulfont.c:56-63 | the split's initial index is o/588 + 1 |
| Hangul.MedialGroupFollowsInitial | stm32lib/hangulfont.c:86-89 | with the corrected test the plain medial groups go exactly with the initials giyeok and kieuk |
| Hangul.MedialTestAsWrittenMisses | stm32lib/hangulfont.c:101 | the test as written gives syllable U+AC00 medial group 1 instead of 0 (medial glyph 183, not 161) and U+CC28 group 0 instead of 1 (glyph 161, not 183) |
| Hangul.GlyphBands | stm32lib/hangulfont.c:115-128 | with the medial test as written and with the corrected one, the initial, medial and final parts come from the disjoint bands [0,160), [160,248), [248,360) of the bitmap |
| Hangul.PartsOf | stm32lib/hangulfont.c:98-128 | the part numbers read with the medial test as written lie in their bands, and there is no final part exactly when the final is 0 |
| Hangul.PartsOfCorrected | stm32lib/hangulfont.c:86-89 | the part numbers the corrected medial test would read lie in the same bands |
| Hangul.MedialGroupAsWritten | stm32lib/hangulfont.c:101 | as written, the plain medial groups go with the initial chieuch (index 14 of the standard) alone |
| Hangul.PartsDifferInMedial | stm32lib/hangulfont.c:101 | the as-written and corrected parts share initial and final glyphs; the medial glyphs differ exactly for the initials giyeok, chieuch and kieuk |
| Hangul.OpenSyllableIgnoresFinals | stm32lib/hangulfont.c:126-131 | a glyph without a final is the same whatever the bitmap holds from glyph 248 on |
| Hangul.GlyphNumbers | stm32lib/hangulfont.c:56-110 | the split and the variant choice, with the medial test as written, compute the part numbers of PartsOf |
| Hangul.GlyphScratch.GetGlyph | stm32lib/hangulfont.c:33-134 | the first glyphbyte bytes of the scratch become the composed glyph, the rest are untouched, and the scratch itself is returned |
| Hangul.GlyphScratch.Assemble | stm32lib/hangulfont.c:111-131 | the scratch holds the OR of the initial, medial and (if any) final parts |
| Hangul.GlyphScratch.Clear | stm32lib/hangulfont.c:111 | the memset zeroes the first glyphbyte bytes and keeps the rest |
| Hangul.GlyphScratch.CopyPart | stm32lib/hangulfont.c:114-117 | the copy loop makes the first glyphbyte bytes equal the part |
| Hangul.GlyphScratch.OrPart | stm32lib/hangulfont.c:120-123 | the OR loop makes the first glyphbyte bytes the byte-wise OR of what was there and the part |
| Hangul.Latin1Cases | stm32lib/hangulfont.c:138-156 | ASCII passes and clears c1; after C2 a byte passes, after C3 it becomes b OR 0xC0 (0xC0 + b % 64), 82 AC gives 80, and every other non-ASCII byte, 82 followed by anything but AC included, is dropped; c1 remembers the byte |
| Hangul.EuroSign | stm32lib/hangulfont.c:152 | E2 82 AC comes out as the single byte 0x80 |
| Hangul.Latin1RunShape | stm32lib/hangulfont.c:158-168 | the output is no longer than the input, holds no NUL, and an ASCII string comes out unchanged |
| Hangul.Latin1RunAppend | stm32lib/hangulfont.c:162-166 | one more input byte appends its output, if any, and moves on the remembered byte |
| Hangul.StrLen | stm32lib/hangulfont.c:162 | strlen is the index of the first NUL |
| Hangul.Latin1Filter.Convert | stm32lib/hangulfont.c:138-156 | utf8ascii returns the filter's output byte and updates c1 as the filter says |
| Hangul.Latin1Filter.CompactString | stm32lib/hangulfont.c:158-168 | utf8strascii rewrites the string in place to the kept bytes followed by a NUL; the bytes past that NUL are unchanged |
| Ssd1306.FlushPayload | stm32lib/ssd1306.c:114-126 | the data the screen update sends for pages 0..n-1 is the first n*128 buffer bytes: every page once, in order |
| Ssd1306.FlushPages | stm32lib/ssd1306.c:118-124 | page m of the update is addressed by command 0xB0+m and then sends bytes 128m..128m+127 |
| Ssd1306.Display.constructor | stm32lib/ssd1306.c:36-48 | the static buffer and state start zeroed |
| Ssd1306.Display.Init | stm32lib/ssd1306.c:51-112 | without a probe answer NOTCONNECT and nothing sent; otherwise the init stream, a cleared buffer and its flush are sent, the cursor is homed, and OK is returned |
| Ssd1306.Display.TurnOn | stm32lib/ssd1306.c:598-603 | sends 0x8D 0x14 0xAF |
| Ssd1306.Display.TurnOff | stm32lib/ssd1306.c:605-610 | sends 0x8D 0x10 0xAE |
| Ssd1306.Display.UpdateScreen | stm32lib/ssd1306.c:114-126 | the bus gets the eight page transfers of the buffer |
| Ssd1306.Display.Invert | stm32lib/ssd1306.c:128-139 | the inversion flag flips and every byte is complemented |
| Ssd1306.Display.Fill | stm32lib/ssd1306.c:141-145 | every byte becomes 0x00 for black and 0xFF for white |
| Ssd1306.Display.DrawPixel | stm32lib/ssd1306.c:147-168 | the buffer becomes Paint of the old one: the pixel set or cleared, nothing off the panel |
| Ssd1306.Display.GotoXY | stm32lib/ssd1306.c:170-175 | the cursor becomes (x, y) |
| Ssd1306.Display.DrawLine | stm32lib/ssd1306.c:325-408 | the buffer is the old one painted with the line's points |
| Ssd1306.Display.DrawRectangle | stm32lib/ssd1306.c:410-434 | the buffer is the old one painted with the rectangle's four sides |
| Ssd1306.Display.FillRectangle | stm32lib/ssd1306.c:436-462 | the buffer is the old one painted with one line per row 0..h |
| Ssd1306.Display.DrawTriangle | stm32lib/ssd1306.c:464-470 | the buffer is the old one painted with the three sides |
| Ssd1306.Display.FillTriangle | stm32lib/ssd1306.c:473-528 | the buffer is the old one painted with one chord to corner 3 per DDA start |
| Ssd1306.Display.DrawCircle | stm32lib/ssd1306.c:530-564 | the buffer is the old one painted with the eight reflections of every midpoint step |
| Ssd1306.Display.FillCircle | stm32lib/ssd1306.c:566-596 | the buffer is the old one painted with the four chords of every midpoint step |
| Ssd1306.Display.Putc | stm32lib/ssd1306.c:177-216 | no font: 0 and nothing drawn; otherwise 0 and nothing when the cell overflows, else 1 and the glyph drawn at the cursor by font type; the font need only be readable for ch when the cell fits |
| Ssd1306.Display.PutcGfx | stm32lib/ssd1306.c:218-251 | draws the GFX glyph's bit stream in its own box and returns 1 |
| Ssd1306.Display.PutcHangul | stm32lib/ssd1306.c:253-277 | composes the syllable as get_hangul_glyph does, medial test as written, and draws its rows, returning 1 |
| Ssd1306.Display.Puts | stm32lib/ssd1306.c:279-322 | the buffer and cursor are those of the run over the decoded code points, and the count of passes (as a char) is returned |
| Ssd1331.PixelBytesShape | stm32lib/ssd1331.c:153-181 | an on-panel pixel sends column window x..0x5F and row window y..0x3F as commands, then red, green, blue as data below 64 |
| Ssd1331.PixelsFrames | stm32lib/ssd1331.c:153-181 | on-panel points send one frame each, in order; off-panel points send nothing |
| Ssd1331.PixelsAppend | stm32lib/ssd1331.c:429-433 | drawing a concatenation sends the frames of the parts in order |
| Ssd1331.ScreenRowMajor | stm32lib/ssd1331.c:144-151 | fill visits the panel row by row: call y*96+x draws (x, y) |
| Ssd1331.ScreenFrames | stm32lib/ssd1331.c:144-151 | fill sends exactly 96*64 frames, frame y*96+x drawing (x, y) |
| Ssd1331.Oled.constructor | stm32lib/ssd1331.c:38-46 | no frames sent, D/C low, cursor at the origin |
| Ssd1331.Oled.Init | stm32lib/ssd1331.c:48-142 | one frame of the set-up stream as commands, then a black fill; cursor homed, D/C left high, 1 returned |
| Ssd1331.Oled.Fill | stm32lib/ssd1331.c:144-151 | the trace gets one pixel frame for every point of the screen, row-major |
| Ssd1331.Oled.DrawPixel | stm32lib/ssd1331.c:153-181 | one pixel frame when on the panel, nothing otherwise; D/C high after any frame |
| Ssd1331.Oled.GotoXY | stm32lib/ssd1331.c:183-188 | the cursor becomes (x, y) |
| Ssd1331.Oled.TurnOn | stm32lib/ssd1331.c:609-616 | as written: one frame 0xA4 0xAF at whatever D/C level was left |
| Ssd1331.Oled.TurnOnAsCommands | stm32lib/ssd1331.c:609-616 | corrected: D/C low, then 0xA4 0xAF as commands |
| Ssd1331.Oled.TurnOff | stm32lib/ssd1331.c:618-625 | as written: one frame 0xA6 0xAE at whatever D/C level was left |
| Ssd1331.Oled.TurnOffAsCommands | stm32lib/ssd1331.c:618-625 | corrected: D/C low, then 0xA6 0xAE as commands |
| Ssd1331.OnAfterInit | stm32lib/ssd1331.c:609-616 | after init, on as written sends 0xA4 0xAF as data bytes |
| Ssd1331.OnAfterInitAsCommands | stm32lib/ssd1331.c:609-616 | after init, the corrected on sends 0xA4 0xAF as commands |
| Ssd1331.Oled.DrawLine | stm32lib/ssd1331.c:336-419 | the trace gets the pixel frames of the line's points |
| Ssd1331.Oled.DrawRectangle | stm32lib/ssd1331.c:421-445 | the trace gets the pixel frames of the four sides |
| Ssd1331.Oled.FillRectangle | stm32lib/ssd1331.c:447-473 | the trace gets the pixel frames of one line per row 0..h |
| Ssd1331.Oled.DrawTriangle | stm32lib/ssd1331.c:475-481 | the trace gets the pixel frames of the three sides |
| Ssd1331.Oled.FillTriangle | stm32lib/ssd1331.c:484-539 | the trace gets the pixel frames of one chord to corner 3 per DDA start |
| Ssd1331.Oled.DrawCircle | stm32lib/ssd1331.c:541-575 | the trace gets the pixel frames of the eight reflections of every midpoint step |
| Ssd1331.Oled.FillCircle | stm32lib/ssd1331.c:577-607 | the trace gets the pixel frames of the four chords of every midpoint step |
| Ssd1331.Oled.Putc | stm32lib/ssd1331.c:190-229 | no font: 0 and nothing sent; otherwise 0 and nothing when the cell overflows, else ch as a char and the glyph's frames; the font need only be readable for ch when the cell fits |
| Ssd1331.Oled.PutcGfx | stm32lib/ssd1331.c:231-264 | sends the GFX glyph's frames and returns ch - first as a char |
| Ssd1331.Oled.PutcHangul | stm32lib/ssd1331.c:266-290 | composes the syllable as get_hangul_glyph does, medial test as written, sends its frames and returns ch as a char |
| Ssd1331.Oled.Puts | stm32lib/ssd1331.c:292-333 | the trace and cursor are those of the run over the decoded code points, and the terminating NUL (0) is returned |
| Gpio.PinIndex | stm32lib/gpio.h:325 | the pin index is below 16 |
| Gpio.PortOffset | stm32lib/gpio.c:102-106 | the port offset from bits 4..6 is below 8 |
| Gpio.RegValueSingleBit | stm32lib/gpio.h:324 | GPIO_REG_VALUE is a single bit |
| Gpio.MaskSet | stm32lib/gpio.c:57 | OR-ing the pin's bit sets it and keeps every other bit |
| Gpio.MaskClear | stm32lib/gpio.c:58-59 | AND-ing with its complement clears the pin's bit and keeps every other bit |
| Gpio.PullFieldOnly | stm32lib/gpio.c:114-122 | the PUPDR field of the pin holds the pull mode and every bit outside it is kept |
| Gpio.BsrrEncoding | stm32lib/gpio.c:132-136 | a nonzero state writes only the set half of BSRR, a zero state only the reset half, each with the pin's bit |
| Gpio.ToggleFlipsPin | stm32lib/gpio.c:147 | toggle inverts the pin's ODR bit |
| Gpio.ToggleKeepsOthers | stm32lib/gpio.c:147 | toggle keeps every other ODR bit |
| Gpio.ToggleTwice | stm32lib/gpio.c:147 | toggling twice restores ODR |
| Gpio.Claim | stm32lib/gpio.c:55-72 | the pin's bit is set in the mask of its mode and cleared in the other two, other ports untouched |
| Gpio.PinNumberAsWrittenInverted | stm32lib/gpio.h:321 | the check as written rejects the valid pin PA0 and accepts GPIO_NC |
| Gpio.PinNumberDecomposes | stm32lib/gpio.h:321 | a valid pin number is exactly its port bits and its index bits |
| Gpio.Port.constructor | stm32lib/gpio.c:114-170 | the registers the helpers touch start at zero |
| Gpio.Pins.constructor | stm32lib/gpio.c:31-33 | all three usage masks start empty |
| Gpio.Pins.AlternateInit | stm32lib/gpio.c:44-84 | OUT, IN and AF/OD record the pin in their own mask and drop it from the two others; any other mode changes no mask; the HAL record carries the pin bit, mode and alternate function |
| Gpio.Pins.Init | stm32lib/gpio.c:40-42 | AlternateInit with alternate function 0: per mode, the pin's bit is set in its mode's mask at its port and cleared in the other two, every other bit and port is kept, and the HAL record carries the pin, the mode and alternate 0 |
| Gpio.Pins.Deinit | stm32lib/gpio.c:86-94 | the pin leaves the output and input masks; the AF mask keeps it |
| Gpio.Pins.UsedPins | stm32lib/gpio.c:287-290 | exactly the pins recorded in some mask |
| Gpio.Pins.FreePins | stm32lib/gpio.c:292-295 | exactly the 16-bit complement of the used pins |
| Gpio.Pins.SetPinMode | stm32lib/gpio.c:114-122 | PUPDR gets the pull mode in the pin's field; the other registers are unchanged |
| Gpio.Pins.Write | stm32lib/gpio.c:124-137 | BSRR gets the set or reset encoding of the pin, and the port latches it into ODR: the pin's ODR bit reads 1 exactly for a nonzero state, every other ODR bit is kept, PUPDR and IDR are unchanged |
| Gpio.WriteDrivesPin | stm32lib/gpio.c:132-136 | after the BSRR store the pin's ODR level is 1 exactly for a nonzero state and every other ODR bit is kept |
| Gpio.WriteThenRead | stm32lib/gpio.c:124-170 | gpio_write then gpio_read on a pin recorded as output returns 1 exactly for a nonzero state |
| Gpio.Pins.Toggle | stm32lib/gpio.c:139-148 | ODR gets the pin's bit flipped; the other registers are unchanged |
| Gpio.Pins.Read | stm32lib/gpio.c:150-170 | 1 or 0 from the ODR bit of a pin recorded as output, from the IDR bit otherwise |
| Clcd.Nibble | stm32lib/clcd.c:309-316 | a nibble write is seven line events |
| Clcd.NibbleRoundTrip | stm32lib/clcd.c:309-316 | D7..D4 carry bits 3..0: a receiver latches back the nibble written |
| Clcd.WiresRoundTrip | stm32lib/clcd.c:289-307 | the line trace of any sequence of commands and data reads back as that sequence, with RS telling them apart |
| Clcd.RenderBytes | stm32lib/clcd.c:289-316 | a record of byte writes renders to the line levels of those bytes |
| Clcd.FlagOnly | stm32lib/clcd.c:221-243 | setting or clearing an option flag decides that flag and preserves every other bit |
| Clcd.FlagIdempotent | stm32lib/clcd.c:253-269 | setting a flag to the value it already has changes nothing |
| Clcd.ClampRow | stm32lib/clcd.c:212-215 | the row used is the requested one, or the last row when past it |
| Clcd.CursorInjective | stm32lib/clcd.c:209-219 | on a 20-column display of up to four rows, distinct positions get distinct DDRAM addresses |
| Clcd.MessageAt | stm32lib/clcd.c:274-285 | transfer k of a message is data byte s[k], or for a newline the cursor command for the next line; no newline is sent as data |
| Clcd.MessageData | stm32lib/clcd.c:271-286 | the data bytes of a message are its non-newline bytes, in order |
| Clcd.Lcd.constructor | stm32lib/clcd.c:30-37 | the static options start zeroed and nothing has been sent |
| Clcd.Lcd.Send | stm32lib/clcd.c:289-307 | one command or data byte is written |
| Clcd.Lcd.Init | stm32lib/clcd.c:148-197 | size stored; wake-up nibbles; function set with two lines when rows > 1; display on (0x0C); entry left (0x06); clear |
| Clcd.Lcd.Clear | stm32lib/clcd.c:199-202 | sends 0x01 |
| Clcd.Lcd.Home | stm32lib/clcd.c:204-207 | sends 0x02 |
| Clcd.Lcd.SetCursor | stm32lib/clcd.c:209-219 | sends 0x80 \| (col + offset of the clamped row) |
| Clcd.Lcd.EnableDisplay | stm32lib/clcd.c:221-227 | sets or clears DISPLAYON and sends the display control |
| Clcd.Lcd.ShowCursor | stm32lib/clcd.c:229-235 | sets or clears CURSORON and sends the display control |
| Clcd.Lcd.Blink | stm32lib/clcd.c:237-243 | sets or clears BLINKON and sends the display control |
| Clcd.Lcd.MoveLeft | stm32lib/clcd.c:245-247 | sends 0x18 |
| Clcd.Lcd.MoveRight | stm32lib/clcd.c:249-251 | sends 0x1C |
| Clcd.Lcd.SetLeftToRight | stm32lib/clcd.c:253-256 | sets ENTRYLEFT and sends the entry mode |
| Clcd.Lcd.SetRightToLeft | stm32lib/clcd.c:258-261 | clears ENTRYLEFT and sends the entry mode |
| Clcd.Lcd.Autoscroll | stm32lib/clcd.c:263-269 | sets or clears ENTRYSHIFTINCREMENT and sends the entry mode |
| Clcd.Lcd.Message | stm32lib/clcd.c:271-286 | sends exactly the transfers of the message |
| Mpu6050.Address | stm32lib/mpu6050.c:88 | the address is 0xD0 or 0xD2, 0xD2 exactly for device 1 |
| Mpu6050.ConfigField | stm32lib/mpu6050.c:129 | the range code lands in bits 3-4 and every other register bit is kept |
| Mpu6050.ConfigIdempotent | stm32lib/mpu6050.c:158 | writing the same range twice leaves the register as after the first write |
| Mpu6050.Signed | stm32lib/mpu6050.c:201 | the int16_t value of a 16-bit pattern is in int16 range |
| Mpu6050.JoinSplits | stm32lib/mpu6050.c:201-203 | the byte pair is recovered from the joined pattern |
| Mpu6050.SplitJoins | stm32lib/mpu6050.c:217-219 | every 16-bit pattern is the join of its high and low bytes |
| Mpu6050.SampleSign | stm32lib/mpu6050.c:250-261 | a sample is negative exactly when the high byte's sign bit is set |
| Mpu6050.Bus.constructor | stm32lib/mpu6050.c:91-92 | the bus starts with the given registers and an empty transfer log |
| Mpu6050.Bus.Ready | stm32lib/mpu6050.c:95 | the probe's status is returned and logged |
| Mpu6050.Bus.Read | stm32lib/mpu6050.c:101 | one register is read and logged |
| Mpu6050.Bus.ReadMany | stm32lib/mpu6050.c:198 | consecutive registers are read and logged as one burst |
| Mpu6050.Bus.Write | stm32lib/mpu6050.c:108 | a successful write changes the register, a failed one nothing; logged either way |
| Mpu6050.Sensor.constructor | stm32lib/mpu6050.h:200-213 | an MPU6050_t record with the address and every raw sample field zero, as a zero-initialised struct holds before init |
| Mpu6050.Sensor.Init | stm32lib/mpu6050.c:83-121 | address stored; NOTCONNECT after a failed probe, INVALID when WHO_AM_I is not 0x68, else OK after wake-up, 1 kHz rate, accelerometer and gyro ranges, with PWR_MGMT_1 = 0, SMPLRT_DIV = 0x07 and both range fields replaced when the writes succeed; examples/sw4stm32/swi2ctest/mpu6050.c:57-94 does the same over the bit-banged bus, whose success status is 0 |
| Mpu6050.Sensor.SetAcc | stm32lib/mpu6050.c:123-150 | reads ACCEL_CONFIG, writes it back with the range bits replaced, returns OK; the same over the bit-banged bus at examples/sw4stm32/swi2ctest/mpu6050.c:125-153 |
| Mpu6050.Configured | stm32lib/mpu6050.c:107-117 | after a successful init PWR_MGMT_1 is 0, SMPLRT_DIV is 0x07, both range fields are replaced and every other register is kept |
| Mpu6050.Sensor.Configure | stm32lib/mpu6050.c:107-117 | the wake-up, rate, accelerometer and gyro transfers are logged in order, and the registers become Configured when writes succeed and stay as they were when they fail |
| Mpu6050.Sensor.SetGyro | stm32lib/mpu6050.c:152-179 | reads GYRO_CONFIG, writes it back with the range bits replaced, returns OK; the same over the bit-banged bus at examples/sw4stm32/swi2ctest/mpu6050.c:96-123 |
| Mpu6050.Sensor.SetRate | stm32lib/mpu6050.c:181-191 | ERR exactly when the write reports failure (negative status), else OK; at examples/sw4stm32/swi2ctest/mpu6050.c:155-165 the bit-banged write fails on any nonzero status |
| Mpu6050.Sensor.ReadAcc | stm32lib/mpu6050.c:193-207 | three big-endian int16 samples from ACCEL_XOUT_H; the same over the bit-banged bus at examples/sw4stm32/swi2ctest/mpu6050.c:167-180 |
| Mpu6050.Sensor.ReadGyro | stm32lib/mpu6050.c:209-223 | three big-endian int16 samples from GYRO_XOUT_H; the same over the bit-banged bus at examples/sw4stm32/swi2ctest/mpu6050.c:182-196 |
| Mpu6050.Sensor.ReadTemp | stm32lib/mpu6050.c:225-239 | the raw int16 temperature sample from TEMP_OUT_H; the same over the bit-banged bus at examples/sw4stm32/swi2ctest/mpu6050.c:198-212 |
| Mpu6050.Sensor.ReadAll | stm32lib/mpu6050.c:241-265 | one 14-byte burst: accelerometer, temperature and gyro samples from the same registers the single reads use; the same over the bit-banged bus at examples/sw4stm32/swi2ctest/mpu6050.c:214-238 |
| UsbCdc.BitrateBytes | examples/cubemx/usbcdc_f446_cubemx/Src/usbd_cdc_if.c:338-341 | the bit rate is sent as four bytes |
| UsbCdc.EncodeLineCoding | examples/cubemx/usbcdc_f446_cubemx/Src/usbd_cdc_if.c:338-344 | the reply is seven bytes, format, parity and data bits last |
| UsbCdc.BytesOfBitrate | examples/cubemx/usbcdc_f446_cubemx/Src/usbd_cdc_if.c:326-329 | the little-endian bytes are recovered from the rate |
| UsbCdc.BitrateOfBytes | examples/cubemx/usbcdc_f446_cubemx/Src/usbd_cdc_if.c:338-341 | every rate is the little-endian join of its bytes |
| UsbCdc.EncodeDecode | examples/cubemx/usbcdc_f446_cubemx/Src/usbd_cdc_if.c:325-346 | GET_LINE_CODING after SET_LINE_CODING returns the seven bytes the host sent |
| UsbCdc.DecodeEncode | examples/cubemx/usbcdc_f446_cubemx/Src/usbd_cdc_if.c:325-346 | storing a reply gives back the coding it came from |
| UsbCdc.StopBitsOf | examples/cubemx/usbcdc_f446_cubemx/Src/usbd_cdc_if.c:518-529 | two stop bits exactly for format 2 |
| UsbCdc.ParityOf | examples/cubemx/usbcdc_f446_cubemx/Src/usbd_cdc_if.c:532-546 | odd exactly for 1, even exactly for 2, none otherwise |
| UsbCdc.WordLengthOf | examples/cubemx/usbcdc_f446_cubemx/Src/usbd_cdc_if.c:549-567 | a 9-bit word exactly for 8 data bits with parity |
| UsbCdc.ComPortConfig | examples/cubemx/usbcdc_f446_cubemx/Src/usbd_cdc_if.c:510-583 | the UART gets the coding's rate, stop bits, parity and word length |
| UsbCdc.DefaultConfig | examples/cubemx/usbcdc_f446_cubemx/Src/usbd_cdc_if.c:82-87 | the default coding configures 115200 baud 8N1 |
| UsbCdc.ChunkSize | examples/cubemx/usbcdc_f446_cubemx/Src/usbd_cdc_if.c:431-446 | a chunk is nonempty, never crosses the end of the ring, and reaches the write index or the end |
| UsbCdc.Advanced | examples/cubemx/usbcdc_f446_cubemx/Src/usbd_cdc_if.c:438-444 | the read index moves past the chunk modulo the ring size |
| UsbCdc.TwoChunksDrain | examples/cubemx/usbcdc_f446_cubemx/Src/usbd_cdc_if.c:431-446 | at most two chunks empty the Tx ring |
| UsbCdc.PlacedData | examples/cubemx/usbcdc_f446_cubemx/Src/usbd_cdc_if.c:452-460 | packet byte k lands k places after the write index, wrapping |
| UsbCdc.PlacedKeeps | examples/cubemx/usbcdc_f446_cubemx/Src/usbd_cdc_if.c:452-460 | every other ring byte is kept |
| UsbCdc.CdcPort.constructor | examples/cubemx/usbcdc_f446_cubemx/Src/usbd_cdc_if.c:132-151 | default coding, all indices 0, nothing received or sent |
| UsbCdc.CdcPort.Init | examples/cubemx/usbcdc_f446_cubemx/Src/usbd_cdc_if.c:212-258 | the UART is configured from the current line coding |
| UsbCdc.CdcPort.Control | examples/cubemx/usbcdc_f446_cubemx/Src/usbd_cdc_if.c:283-362 | SET stores the payload and reconfigures; GET writes the coding into the request buffer; others change nothing; OK returned |
| UsbCdc.CdcPort.Receive | examples/cubemx/usbcdc_f446_cubemx/Src/usbd_cdc_if.c:378-393 | the packet is parked in the 64-byte buffer with its size and the flag set |
| UsbCdc.CdcPort.UartReceived | examples/cubemx/usbcdc_f446_cubemx/Src/usbd_cdc_if.c:471-487 | the byte is stored at the write index, which advances modulo the ring size |
| UsbCdc.CdcPort.DrainTx | examples/cubemx/usbcdc_f446_cubemx/Src/usbd_cdc_if.c:431-446 | an empty ring sends nothing; otherwise the next chunk is offered and the read index moves only if the USB stack took it |
| UsbCdc.CdcPort.DeliverRx | examples/cubemx/usbcdc_f446_cubemx/Src/usbd_cdc_if.c:449-462 | a parked packet is copied into the Rx ring at the write index (wrapping), the index advances, the packet goes to the UART and the flag clears |
| UsbCdc.CdcPort.PeriodElapsed | examples/cubemx/usbcdc_f446_cubemx/Src/usbd_cdc_if.c:426-464 | the Tx drain, then the Rx delivery: on UsbOk the next chunk is sent and the read index advances, an empty ring or a busy stack sends nothing; a parked packet is placed at the Rx write index, which advances modulo the ring, and passed to the UART, else the Rx ring is untouched |

## Left out

- I2C, SPI, UART and USB transports are traces or parameters: a bus is a log of transfers, and a probe, write or USB answer is a status parameter. Delays, `HAL_Delay`, clocks and the timer set-up (`TIM_Config`) are not modelled.
- Font bitmaps and glyph tables are arbitrary data. Fonts.Readable states which entries a glyph reads.
- Floating point: the `acc_mult` and `gyro_mult` scale factors and the converted temperature of mpu6050 are left out. Only the raw int16 samples are modelled.
- Mpu6050.Sample: the samples are stated on bit patterns (join, split, sign). There is no lemma giving the integer value of a sample.
- Mpu6050.Sensor.Init: a failed WHO_AM_I read leaves `temp` uninitialised in C. The model reads the register value instead.
- Mpu6050.Sensor.SetAcc, Mpu6050.Sensor.SetGyro, Mpu6050.Sensor.ReadAcc, Mpu6050.Sensor.ReadGyro, Mpu6050.Sensor.ReadTemp and Mpu6050.Sensor.ReadAll: the C code ignores the read status and returns OK, leaving its buffer as it was after a failed read. The model's reads always return the register contents, so a failed read is not modelled.
- `HAL_GPIO_Init`, `HAL_GPIO_DeInit`, `gpio_enable_clock` and `gpio_disable_clock` are left out. Gpio.Pins.AlternateInit returns the record handed to `HAL_GPIO_Init` instead.
- `gpio_get_port_source` and `gpio_get_port_base` are address arithmetic. The model indexes ports by their offset directly.
- Gpio.Pins.Write and Gpio.Pins.Toggle: the `IS_GPIO_PIN_OUTPUT` assertions are not required. They are debug-only checks.
- Gpio.Pins.Write: the port's latching of a BSRR store into ODR is modelled as part of the store (Gpio.Latched, the set half winning where both halves name a bit). The model keeps the stored value in `bsrr`, where the device reads the register back as 0, and it does not derive the pin's input level in IDR from ODR.
- Clcd.Lcd.Message requires 1 to 4 rows, the size of the row offset table, and a string without NUL, since a NUL ends the C loop.
- Clcd.Lcd.SetCursor requires a row that, once clamped, indexes the four-entry offset table.
- The clcd pin set-up (`clcd_initpins`) and the enable strobe timing are left out. Clcd.Nibble gives the strobe as three events.
- Ssd1306.Display.Puts and Ssd1331.Oled.Puts require a well-formed byte string, one whose three-byte forms do not run past the terminator. The C code would read past the NUL.
- Fonts.SetReadable: the font list is the prefix before the first null entry, at most five fonts.
- Ssd1306.Display.DrawCircle, Ssd1306.Display.FillCircle, Ssd1331.Oled.DrawCircle and Ssd1331.Oled.FillCircle: the radius is limited to -16383..16380 so that every int16 accumulator stays in range. The int16 overflow of larger radii is not modelled.
- Ssd1306.Display.FillTriangle and Ssd1331.Oled.FillTriangle require the sides 1-2 to be shorter than 16384 in both directions, for the same reason.
- The fixed initialisation streams of both displays are constants, each copied from its driver.
- UsbCdc.CdcPort.Control: the USB device stack's `TxState` and `USBD_CDC_TransmitPacket` are not modelled. The transmit result is the `status` parameter of DrainTx.
- `HAL_UART_Init` failure and `Error_Handler` are left out, as are `CDC_DeInit_FS` and `CDC_Transmit_FS` internals.
- UsbCdc.CdcPort.UartReceived: the UART stores the byte through DMA/interrupt before the callback. The model performs the store in the callback.
- Interrupt interleaving of the timer, UART and USB callbacks, and the DMA transfer of the Rx packet to the UART, are left out. Each callback runs atomically and the UART transfer is logged as one packet.
- UsbCdc.CdcPort.DrainTx: the Tx wrap compares against `APP_RX_DATA_SIZE` where the Tx ring is `APP_TX_DATA_SIZE` long. Both are 2048, so the model uses one size.
- `unsigned char` arithmetic beyond what the drivers use is not modelled. The one such value the model returns, the pass count of Ssd1306.Display.Puts, is stated modulo 256.

## Findings

| source | as written | input that shows it | evidently intended | confidence | as-written member | corrected member |
|---|---|---|---|---|---|---|
| stm32lib/hangulfont.c:101 | the medial-group test compares the already incremented initial index with 0 and 15 | syllable U+AC00 (initial giyeok, index 1) gets medial group 1 and U+CC28 (initial chieuch, index 15) gets group 0 | the plain groups for the initials giyeok and kieuk (incremented indices 1 and 16) | high, not executed | Hangul.MedialTestAsWrittenMisses | Hangul.PartsOfCorrected |
| stm32lib/ssd1331.c:609-625 | on and off send their two command bytes without driving D/C low | on right after init, whose fill leaves D/C high, sends 0xA4 0xAF as pixel data | D/C low so that both bytes are commands | high, not executed | Ssd1331.OnAfterInit | Ssd1331.OnAfterInitAsCommands |
| stm32lib/gpio.h:321 | IS_GPIO_PIN_NUMBER(PIN) is PIN & ~0x7F, nonzero exactly for invalid pins | with assertions enabled, gpio_init(PA0) fails the check and GPIO_NC passes it | a valid pin has no bit above 0x7F | high, not executed | Gpio.PinNumberAsWrittenInverted | Gpio.PinNumberDecomposes |

The Hangul glyph path of both drivers keeps the medial test as written; Hangul.PartsOfCorrected, Hangul.MedialGroupFollowsInitial and Hangul.PartsDifferInMedial state the corrected choice and how far it departs from the code.
