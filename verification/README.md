# Womprat, modelled and proved

Womprat is a tailnet browser shell: Go code for settings, tabs, networking and
certificates, and a JavaScript front end with a VNC viewer. These Dafny files model
the parts in which an error would be hard to see, and prove what those parts promise
on all inputs and in all runs.

**The VNC viewer** (`cmd/womprat/frontend/vnc.js`).

* *DEFLATE* (`Words`, `Reversal`, `Huffman`, `BitStream`, `Fields`, `Tokens`,
  `CodeLengths`, `Header`, `Inflate`, `Blocks`, `Stream`, `Costs`, `Writer`,
  `BlockWriter`, `Inflater`, `Zlib`, `Rfc1951`). A buffer is a number, lowest bit first; what is written is
  a list of fields. The writer's arrays and loops are proved to leave the fields of one
  block, the reader's arrays and loops are proved to compute a specification, and the
  specification is proved to give back, for any list of stored, fixed and dynamic blocks,
  exactly what they stand for (sections 3.2.2 to 3.2.7 of RFC 1951). The orders, codes
  and ranges that both sides take from the same tables are those of the RFC (`Rfc1951`).
* *Adler-32* (`Adler`), section 2.2 of RFC 1950, with its late reduction and signed words.
* *The password response* (`DesTables`, `Des`, `VncAuth`, `DesWords`, `DesLaws`,
  `DesAnswers`), FIPS 46-3 and section 7.2.2 of RFC 6143: the cipher on bit strings with
  its algebra, and the code on numbers. Its tables are pinned down by closed forms, by the
  design criteria of the S-boxes, and by sixteen known answers, fourteen of them from NBS
  Special Publication 500-20, which are followed round by round in a second form of the
  cipher on 64-bit words that is proved equal to the first.
* *Rectangles* (`Pixels`, `Rre`, `Tiles`, `Hextile`, `Zrle`), sections 7.7.3 to 7.7.6 of
  RFC 6143: in-place painting, and what each pixel of an accepted payload shows.
* *What a server sends* (`Encodings`, `Packing`, `ZrleEncodings`, `Rectangles`): the same
  encodings written from the server's side, after sections 7.6 to 7.8 of RFC 6143 (ZRLE
  with whole pixels and a stream of its own for each rectangle, as this client wants it),
  and that each decoder gives back what was sent. `ZrleStall` and `Dialect` say what
  becomes of other ZRLE rectangles.
* *The protocol* (`Rfb`, `RfbClient`, `RfbChunks`, `RfbRuns`, `RfbSession`): `receive` as a
  class whose fields the loop updates, the theorem that chunk boundaries do not matter,
  and whole sessions (`RfbTalk`): for every server that keeps to RFC 6143, but for ZRLE,
  which has to come in the client's own dialect, and that waits for the client's answers,
  whatever it offers and says and however its bytes are cut, it is settled when what the
  client delivers and answers is what the server means.

**The Go side and the WebAssembly runtime.** `Settings` (with `Text` and
`AddressHistory`) and `Workers` are state machines over the small steps of any number of
threads; `Relay` has both the loops and the interleavings of its two directions;
`ExitNode`, `Navigation`, `Certificate`, `RefTable` and `Tabs` are classes, with the
history of a run kept beside them where a property speaks of it.

## Where the code does not do what one would expect

Each of these is proved, with the exact condition:

* `inflt` asks for room only in front of a block and at matches, so of a block of
  literals only the first 131072 arrive when nothing has made the buffer larger
  (`Blocks.BodyDecodes`, `Stream.LiteralBlock`). The writer never makes such a block.
* A server older than 3.7 that sends the security word zero: the word is consumed before
  its reason is there and the stage does not remember it, so the next bytes are taken
  for a security type (`RfbChunks.ChunksAgreeIff`).
* A 3.7 server that asks for no password sends no security result (appendix A.2 of
  RFC 6143) and waits for the client's initialisation; the client waits for the result,
  so both wait for ever. With every other 3.x server that the client can talk to, and in
  the encodings as it reads them, the session is carried out as meant
  (`RfbTalk.SessionIff`).
* A server that claims a major version above 3 with a minor one below 7 is told 3.8 and
  parsed as 3.3 (`RfbRuns.AnnouncedVersionFits`).
* `fillRgbaRect` does not clip at the right edge: an overrunning rectangle paints
  pixels that are not its own, except where no row is left for it to do so
  (`Pixels.FillOwnIff`).
* A packed ZRLE tile with an index past its palette leaves the pixel transparent
  (`Zrle.TileOpaque`).
* A ZRLE rectangle whose first tile that cannot be read has too few bytes, or a palette
  run with an index not below the palette size, is taken for one that has not arrived
  yet, so the session stalls (`ZrleStall.ShortIff`, `ZrleStall.NeverComplete`,
  `Dialect.StalledForEver`).
* ZRLE is offered by default but is not read as section 7.7.6 of RFC 6143 defines it, with
  compact pixels and one zlib stream for all rectangles. A payload that does not inflate
  by itself is skipped without a word, which is what becomes of the first rectangle of
  every server that flushes such a stream, and tiles of compact pixels are short in three
  of their forms (`Dialect`). Whatever is said below about ZRLE that is read back is
  about this client's own dialect.
* A zero loses its sign on its way through the reference table (`RefTable.UnboxBox`).
* A stored title can change when it is stored again (`Text.TitleStable`); the file
  matches memory all the same, because only fields that are written normalized have to
  be stable (`Settings.PlanAgrees`).
* A change of the exit node is put back only if it was accepted: one that is refused and
  takes effect all the same stays, and a refused way back may leave the change in place
  (`ExitNode.Failed`, `ExitNode.RestoredWhole`).
* The checksum behind a zlib stream is cut off and never compared (`Zlib.UnzlibReads`).

`dafny verify dfyconfig.toml` checks everything.

## Model

| member | source | states |
|---|---|---|
| `Reversal.RoundsReverse` | cmd/womprat/frontend/vnc.js:505-511 | The four mask-and-shift rounds give the bit reversal of every 15-bit number |
| `Reversal.FillRev` | cmd/womprat/frontend/vnc.js:505-511 | The table `rev` holds the reversal of each of its 32768 indices |
| `Huffman.CodesFit` | cmd/womprat/frontend/vnc.js:514-525 | Under Kraft the codes of every length fit that many bits |
| `Huffman.CodeExact` | cmd/womprat/frontend/vnc.js:522-545 | The 16-bit code counters never wrap: each code is the first of its length plus the earlier symbols of that length |
| `Huffman.BlocksOrdered` | cmd/womprat/frontend/vnc.js:526-537 | Codes are canonical: shorter codes first, then symbol order, and the blocks of lookahead words they fill do not overlap |
| `Huffman.HitsIffPrefix` | cmd/womprat/frontend/vnc.js:526-537 | A lookahead word falls into the block of a symbol if and only if its low bits are the code the writer sends for the symbol |
| `Huffman.PrefixFree` | cmd/womprat/frontend/vnc.js:514-549 | No lookahead word belongs to two symbols |
| `Huffman.TablesAgree` | cmd/womprat/frontend/vnc.js:514-549 | For every length vector that satisfies Kraft with lengths up to 15: on every lookahead word the decode table names exactly the symbol whose sent code the word begins with, and nothing else |
| `Huffman.KraftNarrow` | cmd/womprat/frontend/vnc.js:522-549 | Kraft carries over to a table just wide enough for its longest code and to vectors that differ in trailing zeros |
| `Huffman.EncodeTable` | cmd/womprat/frontend/vnc.js:541-546 | In place: the encode table holds the reversed canonical code of every symbol |
| `Huffman.DecodeTable` | cmd/womprat/frontend/vnc.js:527-538 | In place: every cell of the decode table is the packed symbol and length whose block it lies in, else 0 |
| `BitStream.Bits16Reads` | cmd/womprat/frontend/vnc.js:583-586 | `bits16` with a mask of up to 17 bits reads exactly those bits of the whole buffer, also past its end |
| `BitStream.BitsReads` | cmd/womprat/frontend/vnc.js:579-582 | `bits` with a mask of up to 9 bits reads exactly those bits of the whole buffer |
| `BitStream.PutAdds` | cmd/womprat/frontend/vnc.js:769-775 | Or-ing a value in at bit p of a buffer that is zero from there on adds it times 2^p to the number the buffer stands for |
| `BitStream.WBits16` | cmd/womprat/frontend/vnc.js:769-775 | In place: `wbits16` is that write; cells past the end are ignored |
| `BitStream.WBits` | cmd/womprat/frontend/vnc.js:763-768 | In place: `wbits`, for values below 512, is the same write |
| `Fields.WroteReads` | cmd/womprat/frontend/vnc.js:763-775 | Any list of fields written one behind the other is what the bits of the buffer begin with |
| `Fields.StartsConcat` | cmd/womprat/frontend/vnc.js:579-586 | Reading a list of fields leaves the reader in front of the next |
| `Tokens.Freb` | cmd/womprat/frontend/vnc.js:485-499 | The base tables, and every cell of the reverse tables: offset and code |
| `Tokens.LengthSplits` | cmd/womprat/frontend/vnc.js:496-500 | Every length from 3 to 258 is the base of its code plus an offset that fits the extra bits |
| `Tokens.DistSplits` | cmd/womprat/frontend/vnc.js:501-504 | Every distance from 1 to 32768 is the base of its code plus an offset that fits the extra bits |
| `Tokens.PackMatch` | cmd/womprat/frontend/vnc.js:1028 | The word built from the two reverse tables is the packed form of the match |
| `Tokens.Unpack` | cmd/womprat/frontend/vnc.js:943-957 | The shifts and masks of the writer take the four numbers of a match back out of its word |
| `CodeLengths.Lc` | cmd/womprat/frontend/vnc.js:845-879 | For every vector of lengths 0 to 15 the words expand, by the reader's rules for 16, 17 and 18, to the vector up to its trailing zeros, begin with no repeat, and never need more cells than allocated |
| `CodeLengths.EndRun` | cmd/womprat/frontend/vnc.js:856-874 | One run of equal lengths: words for exactly that run, no more of them than lengths |
| `Header.ExpandConcat` | cmd/womprat/frontend/vnc.js:901-910 | Two coded vectors sent one behind the other expand to both, when the second does not begin by repeating |
| `Header.LengthsRead` | cmd/womprat/frontend/vnc.js:672-690 | The reader's loop recovers the lengths from the coded words and stops behind them |
| `Header.HeaderReads` | cmd/womprat/frontend/vnc.js:660-697 | A dynamic header that was sent, every length at its place of `Rfc1951.HeaderPlaces`, is read back: both codes with their table widths, and the position behind it |
| `Blocks.LookFinds` | cmd/womprat/frontend/vnc.js:708-709 | At the code of a symbol the table lookup finds that symbol |
| `Blocks.TokenDecodes` | cmd/womprat/frontend/vnc.js:707-754 | One turn of the symbol loop applies one token to the output and moves behind it |
| `Blocks.CopyAppends` | cmd/womprat/frontend/vnc.js:745-754 | The byte loop of a match is the LZ77 copy, also where it reads what it writes |
| `Blocks.BodyDecodes` | cmd/womprat/frontend/vnc.js:703-756 | For every list of literals and valid matches and every pair of prefix codes: the symbol loop ends exactly at the written position with the length of the LZ77 expansion, and its output is the expansion if and only if no byte is lost |
| `Blocks.ShortBlockKept` | cmd/womprat/frontend/vnc.js:703-704 | A block of no more tokens than the room asked for at its start loses nothing |
| `Blocks.LiteralsKept` | cmd/womprat/frontend/vnc.js:703-719 | A run of literals is kept if and only if it fits the buffer, since only blocks and matches ask for room |
| `Stream.LiteralBlock` | cmd/womprat/frontend/vnc.js:622-719 | A first block of literals comes out right if and only if there are at most 131072 of them: further ones are dropped without an error |
| `Stream.LostExample` | cmd/womprat/frontend/vnc.js:703-719 | One block of 131073 literals whose last byte is lost |
| `Stream.BlockReads` | cmd/womprat/frontend/vnc.js:643-756 | One block of any kind, stored, fixed or dynamic, is read back as what it stands for |
| `Stream.StreamReads` | cmd/womprat/frontend/vnc.js:622-762 | Any list of blocks is read back in full, in any mixture of kinds, stopping where the last ends |
| `Stream.StreamRoundTrip` | cmd/womprat/frontend/vnc.js:622-775 | On buffers: what was written from bit p of a buffer that is zero behind it is read from there |
| `Inflater.SymbolLoop` | cmd/womprat/frontend/vnc.js:703-756 | In place, on growing arrays: the symbol loop is the one of the specification, error for error |
| `Inflater.HeaderTables` | cmd/womprat/frontend/vnc.js:660-697 | The two tables read from a dynamic header, in the loops and arrays of the code; where each length is taken from, `Rfc1951.ThirdPlaces` says |
| `Inflater.InfltAll` | cmd/womprat/frontend/vnc.js:622-762 | In place: `inflt` on complete input returns the bytes, or throws the error, of the specification |
| `Costs.Clen` | cmd/womprat/frontend/vnc.js:880-885 | `clen` is the number of bits the counted symbols take |
| `Costs.BodyWidth` | cmd/womprat/frontend/vnc.js:914-915 | `clen(lf, ll) + clen(df, dl) + eb` is the exact size of a block of tokens |
| `Costs.WordsWidth` | cmd/womprat/frontend/vnc.js:915 | The terms for the coded lengths are their exact size |
| `Writer.SendBody` | cmd/womprat/frontend/vnc.js:943-959 | The loop over the tokens and the end of block write exactly the fields of the block |
| `Writer.SendHeader` | cmd/womprat/frontend/vnc.js:920-940 | The header loops write exactly the fields of the header, which are those of `Rfc1951.HeaderPlaces` and the coded lengths |
| `BlockWriter.WfBlk` | cmd/womprat/frontend/vnc.js:886-896 | A stored block: alignment, length, complement and bytes, as fields |
| `Costs.CountsTotal` | cmd/womprat/frontend/vnc.js:794-801 | The counts of a block add up to its symbols, so they stay within the weight that ends the list of the tree builder |
| `BlockWriter.Prepare` | cmd/womprat/frontend/vnc.js:899-915 | Both codes, the third one and its used length make a header that can be read back, and `ftlen` and `dtlen` are exact |
| `BlockWriter.WBlk` | cmd/womprat/frontend/vnc.js:897-960 | Whichever form is chosen, one block is written that stands for exactly what the tokens stand for, takes no more bits than the fixed form, and of the symbol counts only that of the end of block is changed |
| `Adler.ClosedForm` | cmd/womprat/frontend/vnc.js:1064-1083 | The two sums are one more than the bytes and their weighted sum, mod 65521 |
| `Adler.Stretch` | cmd/womprat/frontend/vnc.js:1070-1073 | At most 2655 bytes without reduction: both sums stay below 2^31 and keep their remainders |
| `Adler.Adler.P` | cmd/womprat/frontend/vnc.js:1067-1077 | For every input and every split into calls the accumulators stand for the checksum of all bytes so far |
| `Adler.Adler.D` | cmd/womprat/frontend/vnc.js:1078-1081 | The value delivered is the checksum with its bytes turned round, as a signed 32-bit word |
| `Adler.WBytes` | cmd/womprat/frontend/vnc.js:1098-1101 | Bytes of a signed word laid from the lowest up |
| `Adler.TrailerBytes` | cmd/womprat/frontend/vnc.js:1084-1101 | The four zero cells at the end receive the checksum most significant byte first |
| `Zlib.UnzlibAll` | cmd/womprat/frontend/vnc.js:1119-1183 | A whole payload in one push: nothing, as a throw, unless the two header bytes are sound and there are four bytes more; else what the bytes between inflate to |
| `Zlib.UnzlibReads` | cmd/womprat/frontend/vnc.js:1102-1183 | Any list of blocks behind a header of any level comes out as what it stands for, whatever the trailer says |
| `Zlib.FlushedFails` | cmd/womprat/frontend/vnc.js:1160-1183 | A stream that goes on behind a flush, whatever its blocks, does not inflate by itself |
| `Zlib.HeaderBytes` | cmd/womprat/frontend/vnc.js:1102-1106 | The two bytes in front of a stream of every level |
| `Rfc1951.ThirdPlaces` | cmd/womprat/frontend/vnc.js:664-668 | The reader takes the length of each of the nineteen code-length symbols from its place in section 3.2.7 of RFC 1951: 16, 17, 18, 0, then by turns those from 8 up and those from 7 down; those not sent are zero |
| `Rfc1951.HeaderPlaces` | cmd/womprat/frontend/vnc.js:923-929 | The writer sends three counts and then each length at that same place, and what it does not send is zero |
| `Rfc1951.PlaceIs` | cmd/womprat/frontend/vnc.js:484 | The order `clim` puts every symbol at that place |
| `Rfc1951.RepeatsMeaning` | cmd/womprat/frontend/vnc.js:677-689 | The symbols 16, 17 and 18 repeat the length before 3 to 6 times and zero 3 to 10 and 11 to 138 times, every number by its own extra bits; the others stand for themselves |
| `Rfc1951.FixedSymbols` | cmd/womprat/frontend/vnc.js:550-568 | The fixed code of literals and lengths, symbol by symbol as the table of section 3.2.6 has it, sent first bit first |
| `Rfc1951.FixedDistanceSymbols` | cmd/womprat/frontend/vnc.js:563-570 | The fixed code of distances: five bits, first bit first |
| `Rfc1951.LengthCodes` | cmd/womprat/frontend/vnc.js:482-500 | The first length and the extra bits of every length code, section 3.2.5 |
| `Rfc1951.DistCodes` | cmd/womprat/frontend/vnc.js:483-503 | The first distance and the extra bits of every distance code |
| `Rfc1951.StoredBytes` | cmd/womprat/frontend/vnc.js:886-896 | A stored block as bytes: behind its three bits, on the next whole byte, the length, its complement and the data |
| `Rfc1951.KnownFixed` | cmd/womprat/frontend/vnc.js:622-762 | The five bytes that another encoder makes of a letter eleven times inflate to that |
| `Des.RoundTrip` | cmd/womprat/frontend/vnc.js:1618-1660 | For every key, the network with reversed subkeys undoes encryption, and encryption undoes it |
| `Des.RoundsUndo` | cmd/womprat/frontend/vnc.js:1652-1657 | The rounds in opposite order give back the exchanged halves |
| `Des.Complementation` | cmd/womprat/frontend/vnc.js:1604-1660 | Complementing block and key complements the result |
| `Des.ParityIgnored` | cmd/womprat/frontend/vnc.js:1618-1630 | Every eighth key bit is ignored |
| `DesTables.TablesUndo` | cmd/womprat/frontend/vnc.js:1195-1326 | The initial and the final permutation undo each other |
| `VncAuth.PermuteBits` | cmd/womprat/frontend/vnc.js:1604-1611 | The loop over a table permutes the bits of the number |
| `VncAuth.RotateLeft28` | cmd/womprat/frontend/vnc.js:1612-1617 | Shift, or and mask rotate a 28-bit number |
| `VncAuth.BuildDesSubkeys` | cmd/womprat/frontend/vnc.js:1618-1630 | The sixteen subkeys, as numbers, are those of the key schedule |
| `VncAuth.ApplySBoxes` | cmd/womprat/frontend/vnc.js:1631-1641 | The chunks, rows and columns cut out by shifts and masks are those of the S-boxes, which `DesLaws.RowsPermute`, `DesLaws.BoxesSpread` and the answers of `DesAnswers` pin down |
| `VncAuth.DesFeistel` | cmd/womprat/frontend/vnc.js:1642-1646 | The round function on numbers is the one on bits |
| `VncAuth.EncryptDesBlock` | cmd/womprat/frontend/vnc.js:1647-1660 | The block cipher on bytes and numbers is the network on bits, whose published answers are in `DesAnswers` |
| `VncAuth.ReversedBits` | cmd/womprat/frontend/vnc.js:1570-1577 | The nested loops reverse each byte |
| `VncAuth.BuildVncPasswordKey` | cmd/womprat/frontend/vnc.js:1661-1669 | The key is the reversed low bytes of the first eight characters, zero behind the end |
| `VncAuth.BuildVncPasswordAuthResponse` | cmd/womprat/frontend/vnc.js:1670-1680 | Fails exactly when the challenge has not 16 bytes; else both halves encrypted with the key, as in `DesAnswers.PasswordAnswer` |
| `VncAuth.ResponseInjective` | cmd/womprat/frontend/vnc.js:1670-1680 | The challenge can be recovered from the response with the password, so no two challenges share a response |
| `VncAuth.SevenBitsDecide` | cmd/womprat/frontend/vnc.js:1618-1680 | The response depends only on the low seven bits of the first eight characters |
| `DesLaws.ExpansionForm` | cmd/womprat/frontend/vnc.js:1327-1376 | The expansion sends eight groups of four bits, each between its neighbours, in a circle |
| `DesLaws.WiresPermute` | cmd/womprat/frontend/vnc.js:1377-1410 | No two wires behind the boxes carry the same bit |
| `DesLaws.InitialForm` | cmd/womprat/frontend/vnc.js:1195-1260 | The initial permutation in closed form; with `DesTables.TablesUndo` the final one |
| `DesLaws.KeyForm` | cmd/womprat/frontend/vnc.js:1411-1468 | The choice of the key bits in closed form |
| `DesLaws.OnceAround` | cmd/womprat/frontend/vnc.js:1519 | Sixteen rounds turn each half of the key once round |
| `DesLaws.RowsPermute` | cmd/womprat/frontend/vnc.js:1520-1569 | In every box inputs that agree in the outer two bits give different numbers, and so do inputs that differ in both first bits and in neither last |
| `DesLaws.BoxesSpread` | cmd/womprat/frontend/vnc.js:1520-1569 | In every box inputs that differ in one bit, or just in the middle two, give numbers that differ in at least two bits |
| `DesWords.BoxesOf` | cmd/womprat/frontend/vnc.js:1631-1641 | Eight boxes as rows of hexadecimal digits on a word are the S-boxes on bits |
| `DesWords.FeistelOf` | cmd/womprat/frontend/vnc.js:1642-1646 | The round function in shifts and masks on words is the one on bits |
| `DesWords.StepOf` | cmd/womprat/frontend/vnc.js:1618-1657 | One round with its turn of the key on words is one on bits |
| `DesWords.EncryptOf` | cmd/womprat/frontend/vnc.js:1647-1660 | Sixteen rounds on words give what the cipher gives |
| `DesAnswers.Answer1` | cmd/womprat/frontend/vnc.js:1195-1660 | A published answer of the cipher, round by round |
| `DesAnswers.Answer2` | cmd/womprat/frontend/vnc.js:1195-1660 | A published answer of the cipher, round by round |
| `DesAnswers.Answer3` | cmd/womprat/frontend/vnc.js:1195-1660 | A published answer of the cipher, round by round |
| `DesAnswers.Answer4` | cmd/womprat/frontend/vnc.js:1195-1660 | A published answer of the cipher, round by round |
| `DesAnswers.Answer5` | cmd/womprat/frontend/vnc.js:1195-1660 | A published answer of the cipher, round by round |
| `DesAnswers.Answer6` | cmd/womprat/frontend/vnc.js:1195-1660 | A published answer of the cipher, round by round |
| `DesAnswers.Answer7` | cmd/womprat/frontend/vnc.js:1195-1660 | A published answer of the cipher, round by round |
| `DesAnswers.Answer8` | cmd/womprat/frontend/vnc.js:1195-1660 | A published answer of the cipher, round by round |
| `DesAnswers.Answer9` | cmd/womprat/frontend/vnc.js:1195-1660 | A published answer of the cipher, round by round |
| `DesAnswers.Answer10` | cmd/womprat/frontend/vnc.js:1195-1660 | A published answer of the cipher, round by round |
| `DesAnswers.Answer11` | cmd/womprat/frontend/vnc.js:1195-1660 | A published answer of the cipher, round by round |
| `DesAnswers.Answer12` | cmd/womprat/frontend/vnc.js:1195-1660 | A published answer of the cipher, round by round |
| `DesAnswers.Answer13` | cmd/womprat/frontend/vnc.js:1195-1660 | A published answer of the cipher, round by round |
| `DesAnswers.Answer14` | cmd/womprat/frontend/vnc.js:1195-1660 | A published answer of the cipher, round by round |
| `DesAnswers.Answer15` | cmd/womprat/frontend/vnc.js:1195-1660 | The worked example: key 133457799BBCDFF1, block 0123456789ABCDEF, result 85E813540F0AB405 |
| `DesAnswers.Answer16` | cmd/womprat/frontend/vnc.js:1195-1660 | The answer behind `DesAnswers.PasswordAnswer`; together the sixteen use every cell of every box |
| `DesAnswers.PasswordKey` | cmd/womprat/frontend/vnc.js:1661-1669 | The key of the password `password`, byte by byte |
| `DesAnswers.PasswordAnswer` | cmd/womprat/frontend/vnc.js:1661-1680 | The sixteen bytes that answer a challenge of zeros with the password `password` |
| `Pixels.ClientPixel` | cmd/womprat/frontend/vnc.js:1850-1915 | In the client's format a pixel is its four bytes in opposite order, opaque |
| `Pixels.FillRgbaRect` | cmd/womprat/frontend/vnc.js:1916-1928 | In place: row by row, writes past the end lost, rows that overrun the right edge continued on the next |
| `Pixels.FillAt` | cmd/womprat/frontend/vnc.js:1916-1928 | A rectangle that ends inside the columns paints exactly its own pixels |
| `Pixels.FillHits` | cmd/womprat/frontend/vnc.js:1916-1928 | A pixel is painted exactly when one of the rows, run on over the right edge, covers its place |
| `Pixels.FillOwnIff` | cmd/womprat/frontend/vnc.js:1916-1928 | The missing clip: on every surface and in every colour only the rectangle's own pixels change, if and only if it is empty, inside the columns, over the edge with no row below it, or behind the end |
| `Pixels.BlitRgbaTile` | cmd/womprat/frontend/vnc.js:1929-1935 | In place: a tile inside the surface is copied in row by row and never makes `set` throw |
| `Pixels.BlitAt` | cmd/womprat/frontend/vnc.js:1929-1935 | Each pixel of the tile lands at its place and nothing else changes |
| `Rre.ParseRect` | cmd/womprat/frontend/vnc.js:2100-2166 | RRE and CoRRE, in place: nothing exactly when the payload is not all there, else its length and the painted surface |
| `Rre.ImageMeaning` | cmd/womprat/frontend/vnc.js:2100-2166 | Every pixel opaque; and when no subrectangle crosses the right edge each has the colour of the last one over it, else the background |
| `Rre.TopIsLast` | cmd/womprat/frontend/vnc.js:2115-2130 | That colour is the one of the last subrectangle that covers the pixel |
| `Rre.ParseStable` | cmd/womprat/frontend/vnc.js:2100-2166 | An accepted payload is the same whatever arrives behind it |
| `Tiles.RenderAt` | cmd/womprat/frontend/vnc.js:2167-2235 | Tiles in raster order keep out of each other: every pixel shows what its own tile means |
| `Tiles.LaidMeaning` | cmd/womprat/frontend/vnc.js:1949-2235 | A rectangle of tiles shows what they mean, and nothing transparent if no tile is |
| `Hextile.TileTurn` | cmd/womprat/frontend/vnc.js:2177-2228 | In place: one tile, with the colours in force before and behind it |
| `Hextile.ParseHextileRect` | cmd/womprat/frontend/vnc.js:2167-2235 | In place: nothing exactly when the payload is not all there, else its length and the surface its tiles render |
| `Hextile.ParseMeaning` | cmd/womprat/frontend/vnc.js:2167-2235 | The tiles cover the rectangle, each painted with the colours last set; all pixels opaque; and without subrectangles over the right edge every pixel shows what its own tile means, also where they overrun their tiles |
| `Hextile.ParseStable` | cmd/womprat/frontend/vnc.js:2167-2235 | An accepted payload is the same whatever arrives behind it |
| `Zrle.ParseZrleRunLength` | cmd/womprat/frontend/vnc.js:1936-1948 | The loop over the bytes of a run length, or nothing when they end too early |
| `Zrle.RunDecodes` | cmd/womprat/frontend/vnc.js:1936-1948 | Every length from 1 up is read back from its 255-chained bytes |
| `Zrle.RunEncodes` | cmd/womprat/frontend/vnc.js:1936-1948 | And a length has no other bytes |
| `Zrle.PaintRun` | cmd/womprat/frontend/vnc.js:2034-2043 | In place: a run paints its pixels in reading order and ends with itself or with the tile |
| `Zrle.PlainTile` | cmd/womprat/frontend/vnc.js:2022-2046 | In place: a plain RLE tile is the first width times height pixels of its expanded runs; ends when they are there |
| `Zrle.PaletteTile` | cmd/womprat/frontend/vnc.js:2047-2087 | In place: the same for palette RLE; an index past the palette fails |
| `Zrle.PackedTile` | cmd/womprat/frontend/vnc.js:2004-2020 | In place: packed indices row by row; one past the palette leaves its pixel as it was |
| `Zrle.RowOfIndices` | cmd/womprat/frontend/vnc.js:2004-2005 | A row of packed indices takes an eighth, a quarter or half a byte for each pixel, by the size of the palette, in whole bytes |
| `Zrle.SprinkleIsBlit` | cmd/womprat/frontend/vnc.js:1929-2087 | Painting pixel by pixel in reading order is copying the tile in row by row |
| `Zrle.ParseZrleRect` | cmd/womprat/frontend/vnc.js:1949-2099 | In place: incomplete, skipped or painted exactly as specified |
| `Zrle.ParseMeaning` | cmd/womprat/frontend/vnc.js:1949-2099 | The tiles cover the rectangle and every pixel is that of its own tile |
| `Zrle.TileOpaque` | cmd/womprat/frontend/vnc.js:1973-2087 | A tile is opaque, except that a packed one is exactly when all its indices are inside its palette |
| `Zrle.TransparentExample` | cmd/womprat/frontend/vnc.js:2009-2018 | One pixel whose index is past its palette stays transparent |
| `Zrle.ParseStable` | cmd/womprat/frontend/vnc.js:1949-2099 | An accepted payload is the same whatever arrives behind it |
| `ZrleStall.TileIff` | cmd/womprat/frontend/vnc.js:1973-2087 | A tile is read if and only if its form is known, no run of it names an index that its palette does not have, and no fewer bytes remain than it needs; and where it ends |
| `ZrleStall.ShortIff` | cmd/womprat/frontend/vnc.js:1966-2092 | A rectangle is reported short if and only if its first tile that cannot be read has fewer bytes left than its form needs, or a palette run with an index not below the palette size; never both |
| `ZrleStall.MoreHelpsIff` | cmd/womprat/frontend/vnc.js:1966-2092 | Of a short rectangle: more inflated bytes would complete it if and only if it lacks bytes, and none ever would if and only if an index is bad |
| `ZrleStall.NeverComplete` | cmd/womprat/frontend/vnc.js:1949-1970 | With the payload all there the rectangle is reported incomplete, whatever arrives, if and only if it inflates and is short in one of these two ways |
| `ZrleStall.BadIndexExample` | cmd/womprat/frontend/vnc.js:2072-2074 | One input with a bad index |
| `ZrleStall.TooLittleExample` | cmd/womprat/frontend/vnc.js:1976-1981 | One input with too few bytes |
| `Dialect.StalledForEver` | cmd/womprat/frontend/vnc.js:2440-2643 | An update that begins with such a rectangle is never delivered, nor anything sent behind it |
| `Encodings.RreReads` | cmd/womprat/frontend/vnc.js:2100-2166 | What a server sends as RRE or CoRRE (section 7.7.3 of RFC 6143) is read back: background, subrectangles in order, length |
| `Encodings.PartsRead` | cmd/womprat/frontend/vnc.js:2205-2228 | Hextile subrectangles are read back from their packed bytes, in their own colour or the one in force |
| `Encodings.TileReads` | cmd/womprat/frontend/vnc.js:2177-2228 | A Hextile tile is read back whatever it sets and leaves out |
| `Encodings.HextileReads` | cmd/womprat/frontend/vnc.js:2167-2235 | A rectangle of tiles as a server sends them (section 7.7.4 of RFC 6143) is read back, each with the colours the server had in force |
| `Packing.CellReads` | cmd/womprat/frontend/vnc.js:2004-2018 | Of small numbers packed into bytes, rows in whole bytes, each is found by the shift and mask of the code |
| `ZrleEncodings.PlainRunsRead` | cmd/womprat/frontend/vnc.js:2022-2046 | A plain RLE tile gives back the runs it was written from |
| `ZrleEncodings.IndexRunsRead` | cmd/womprat/frontend/vnc.js:2047-2087 | A palette RLE tile gives back the runs it was written from |
| `ZrleEncodings.PackedReads` | cmd/womprat/frontend/vnc.js:2004-2020 | A packed tile gives back one palette colour for each pixel |
| `ZrleEncodings.CodedReads` | cmd/womprat/frontend/vnc.js:1973-2087 | A tile in any of the five forms gives back its pixels and ends where the next begins |
| `ZrleEncodings.ZrleReads` | cmd/womprat/frontend/vnc.js:1949-2099 | A rectangle of tiles in any mixture of forms, deflated on its own, is read back |
| `Rfb.TurnConsumes` | cmd/womprat/frontend/vnc.js:2279-2682 | Every turn of the loop that goes on consumes at least one byte |
| `RfbClient.VncProtocol.Receive` | cmd/womprat/frontend/vnc.js:2272-2683 | In place: terminates, and delivers the events, messages, state and leftover bytes of the specification, or throws |
| `RfbClient.VncProtocol.UpdateStep` | cmd/womprat/frontend/vnc.js:2440-2659 | In place: a framebuffer update, with the changes an incomplete one leaves behind |
| `RfbClient.VncProtocol.RectStep` | cmd/womprat/frontend/vnc.js:2461-2641 | In place: one rectangle of any encoding, with the decoders run on the buffer |
| `RfbClient.VncProtocol.TypesStep` | cmd/womprat/frontend/vnc.js:2298-2333 | The list of security types: 2 when it is offered and there is a password, else 1 when that is offered, else a throw; and what is sent and awaited next |
| `RfbClient.VncProtocol.InitStep` | cmd/womprat/frontend/vnc.js:2402-2435 | The initialisation: size, name, and the three messages it answers with |
| `RfbChunks.TurnGrows` | cmd/womprat/frontend/vnc.js:2279-2682 | A turn that goes on or throws does the same with more bytes behind |
| `RfbChunks.PartialAgain` | cmd/womprat/frontend/vnc.js:2440-2643 | Reading an incomplete update again changes nothing more |
| `RfbChunks.SamePartial` | cmd/womprat/frontend/vnc.js:2440-2643 | What an incomplete update has changed already makes no difference once it is all there |
| `RfbChunks.ChunksAgree` | cmd/womprat/frontend/vnc.js:2272-2683 | From every state in which the parser waits, unless a 3.3 server's word is zero: all ways to cut the bytes deliver the same events, messages, final state and leftover bytes, and throw if and only if the whole does |
| `RfbChunks.ChunksAgreeIff` | cmd/womprat/frontend/vnc.js:2272-2350 | For a new client and bytes that do not throw in one piece: all cuts agree if and only if the bytes are not a banner below 3.7, the word zero and at least four bytes more |
| `RfbChunks.ZeroInTwoPieces` | cmd/womprat/frontend/vnc.js:2334-2350 | Cut behind the zero word, the next four bytes are taken for the security type |
| `RfbRuns.FeedBalanced` | cmd/womprat/frontend/vnc.js:2272-2683 | Over any number of calls: one update request for each update and one for the display, one client initialisation, at most one answer to a challenge, stages only forwards |
| `RfbRuns.ClientVersions` | cmd/womprat/frontend/vnc.js:1779-1791 | Of 3.3, 3.7 and 3.8 the client announces the highest not above the version of the server, 3.3 to an older one, 3.8 to any above version 3 |
| `RfbRuns.AnnouncedVersionFits` | cmd/womprat/frontend/vnc.js:1779-1791 | The announced version is the one followed, if and only if the server does not claim a major version above 3 with a minor below 7 |
| `RfbRuns.AnnouncedVersionExample` | cmd/womprat/frontend/vnc.js:2280-2297 | The banner of version 4.0 |
| `Rectangles.CutMasked` | cmd/womprat/frontend/vnc.js:2612-2626 | The mask hides exactly the cursor pixels the server means to hide |
| `Rectangles.HeaderReads` | cmd/womprat/frontend/vnc.js:2450-2460 | Place, size and signed encoding of a rectangle are read back |
| `Rectangles.ContentReads` | cmd/womprat/frontend/vnc.js:2461-2639 | What a rectangle of any supported encoding carries is read back, whatever stands around it |
| `Rectangles.DeflatedReads` | cmd/womprat/frontend/vnc.js:1949-2099 | Tiles that were coded, deflated into blocks of any kinds and wrapped are shown by a client with the bundled inflater |
| `Dialect.CompactShort` | cmd/womprat/frontend/vnc.js:1983-2021 | A rectangle of one tile in raw, single-colour or packed form with the compact pixels of section 7.7.6 of RFC 6143 is always short |
| `Dialect.CompactExample` | cmd/womprat/frontend/vnc.js:1988-1993 | One pixel in one colour |
| `Dialect.NotInflatedSkipped` | cmd/womprat/frontend/vnc.js:1739-1762 | A rectangle whose payload does not inflate is deflated instead and then skipped without a word, unless it is empty |
| `Dialect.FirstRectangleSkipped` | cmd/womprat/frontend/vnc.js:1739-1762 | The first rectangle of a server that keeps one stream for all of them and flushes it, as section 7.7.6 has it, is never shown |
| `Rectangles.RectsRead` | cmd/womprat/frontend/vnc.js:2444-2643 | All rectangles of an update are read back in order, also when it ends early with the mark for the last |
| `RfbTalk.HandshakeTalks` | cmd/womprat/frontend/vnc.js:2280-2401 | Against a server of version 3 that waits for the answers, with password authentication exactly when it is offered and there is a password, however its bytes are cut: the client tells and says what the handshake means, up to its initialisation |
| `RfbSession.AllSaidRuns` | cmd/womprat/frontend/vnc.js:2436-2679 | Any messages of a connected server are delivered as what they say, each update answered with one request |
| `RfbTalk.BothWait` | cmd/womprat/frontend/vnc.js:2298-2332 | With a 3.7 server that asks for no password each side waits for the other: nothing is left in the buffer, the client expects a result and has not sent its initialisation |
| `RfbSession.TypesMeaning` | cmd/womprat/frontend/vnc.js:2298-2333 | In a whole call: behind any list of types the client goes on with password authentication if that is offered and there is a password, else with none if that is offered, and else throws |
| `RfbTalk.RoundsTalk` | cmd/womprat/frontend/vnc.js:2436-2679 | Updates, each of which waits for a request, and all that is said between them are delivered as what they say |
| `RfbTalk.SessionIff` | cmd/womprat/frontend/vnc.js:2272-2683 | For every such server, all it says in the encodings of `Rectangles.Proper` (ZRLE only in the dialect of this client) and every way to cut its bytes: the session is carried out as meant if and only if it is not a 3.7 server that asks for no password |
| `Text.TitleStable` | cmd/womprat/browser_meta.go:15-25 | A stored title is stored unchanged again if and only if it was not cut right behind white space |
| `Text.TitleChanges` | cmd/womprat/browser_meta.go:15-25 | One title that changes when stored again |
| `AddressHistory.NormalizeAddressHistory` | cmd/womprat/address_history.go:10-28 | The loop, with its set of entries seen |
| `AddressHistory.NormalizeMeaning` | cmd/womprat/address_history.go:10-28 | The first hundred of the distinct resolvable entries, trimmed; idempotent; a clean history stays as it is |
| `AddressHistory.EnterMeaning` | cmd/womprat/address_history.go:47-65 | An entered address comes first, the rest in order without it |
| `Settings.PlanAgrees` | cmd/womprat/settings_api.go:404-440 | For every handler, what is saved and what is written into memory are the same to the normalizer, and memory becomes what the request asks for |
| `Settings.PlanDoes` | cmd/womprat/settings_api.go:307-440 | Every request, spelled out: memory gets the values it asks for and every other field stays; one that writes nothing finds them there |
| `Settings.FileForm` | cmd/womprat/config.go:180-226 | What the file holds of a configuration: defaults, ranges and the fields left as they are |
| `Settings.RequestsSerial` | cmd/womprat/config.go:161-371 | In every interleaving: with `configSaveMu` free, memory is what the saved requests ask for one after the other, in the order they were saved, and the file that normalized |
| `Settings.FileMatchesMemory` | cmd/womprat/config.go:161-371 | In every interleaving: whenever `configSaveMu` is free memory is all saved changes applied in order, and once a save has succeeded the file is memory normalized |
| `Settings.OthersWait` | cmd/womprat/main.go:382-403 | While one handler holds `configSaveMu` nobody else changes memory, file or log, and a failed save changes none of them |
| `Settings.ReadersSeeWhole` | cmd/womprat/settings_api.go:442-450 | A reader under `mu` never sees a handler's fields half written |
| `Settings.UpdateNotLost` | cmd/womprat/settings_api.go:307-440 | Of every saved request memory shows what it asked for, given what the requests saved before it had made, unless a later one was about the same setting or host |
| `Settings.TabsInOrder` | cmd/womprat/main.go:382-403 | In every interleaving a later save of the open tabs never stores an older list than an earlier one |
| `Settings.LaterSavesSeeChange` | cmd/womprat/main.go:382-403 | Whatever is saved of the tabs from a moment on at which `configSaveMu` is free is the list of that moment or a later one |
| `Settings.SomeoneCanStep` | cmd/womprat/settings_api.go:404-440 | As long as a thread is under way some thread can take a step |
| `Settings.TrustStays` | cmd/womprat/main.go:1560-1595 | The stored key of a host stays, whatever patches and connections come in any interleaving, until the host is deleted |
| `Workers.WorkersExact` | cmd/womprat/main.go:994-1059 | In every run at most one retry and one recovery worker; the fields say which; a recovery applies the exit node that is saved, which cannot change meanwhile |
| `Workers.StoppedMeansStopped` | cmd/womprat/main.go:1061-1076 | When the stopper returns and nobody else has scheduled anything since, neither worker lives and the fields say so, even if the drained retry had scheduled a recovery |
| `Workers.MovesOrWaits` | cmd/womprat/exit_node_recovery.go:11-78 | Every process can move or waits for a live one lower in a fixed order; a recovery worker never waits, so a stopper holding `configSaveMu` does not deadlock |
| `Workers.NoDeadlock` | cmd/womprat/exit_node_recovery.go:11-78 | From every process, who waits for whom leads to one that can take a step |
| `ExitNode.FindPeer` | cmd/womprat/exit_node_preferences.go:33-47 | The loop over the peers |
| `ExitNode.SearchIds` | cmd/womprat/exit_node_preferences.go:32-59 | Ambiguous exactly when peers with different IDs answer to the name by host name, DNS name or ID, not found exactly when none does; success means one ID |
| `ExitNode.SearchOffered` | cmd/womprat/exit_node_preferences.go:32-59 | When the peers that answer to the name, by host name, DNS name or ID, are one, it is found exactly when it offers itself and has an ID |
| `ExitNode.OrderIrrelevant` | cmd/womprat/exit_node_preferences.go:32-59 | The order of the peers does not matter |
| `ExitNode.ApplyAndVerify` | cmd/womprat/exit_node_preferences.go:83-143 | The calls made on the backend, in order and each as it was answered, for every outcome: the ID found in the status read first, the preferences read, the edit, the readback, and on its failure the edit that puts back what was read |
| `ExitNode.Confirmed` | cmd/womprat/exit_node_preferences.go:83-143 | Success: the name stands for exactly one ID in the status that was read; the four preferences and no others were set to it; and the last two calls, behind the edit, read routes accepted, that ID, no automatic node, and that node online; without a name the last call read ID, address and automatic node empty |
| `ExitNode.Failed` | cmd/womprat/exit_node_preferences.go:83-143 | The preferences behind every failure, whatever the backend answers |
| `ExitNode.Restored` | cmd/womprat/exit_node_preferences.go:104-118 | A failure that no refused edit is to blame for: nothing was edited and nothing changed, or the four preferences are what had been read before, and no other preference is touched |
| `ExitNode.ReadBack` | cmd/womprat/exit_node_preferences.go:121-142 | The calls of the readback loop: rounds that show nothing effective, and a last one that does, that fails, or behind which the deadline has passed |
| `ExitNode.ReadBackMeaning` | cmd/womprat/exit_node_preferences.go:61-142 | Reading back edits nothing; success rests on last readings that show the node selected and online, a lapse of time on last readings that lacked one of these, and a failed read on a last call that failed |
| `ExitNode.FirstShown` | cmd/womprat/exit_node_preferences.go:121-142 | No round before the last one of a readback has shown the change effective |
| `ExitNode.Unconfirmed` | cmd/womprat/exit_node_preferences.go:61-142 | When time runs out the last round was answered and lacked one of the things that a success needs |
| `ExitNode.RestoredWhole` | cmd/womprat/exit_node_preferences.go:102-118 | When the preferences read were the true ones, a failure leaves everything as it was if and only if no refused change took effect and no refused way back failed to, or the change was none |
| `ExitNode.NotRestoredExample` | cmd/womprat/exit_node_preferences.go:102-104 | One change that is refused, takes effect and stays |
| `ExitNode.App.Choose` | cmd/womprat/settings_api.go:518-584 | The saved choice changes in memory and on disk together or not at all, only behind a change that was read back as selected and online; a failed save applies the old choice again |
| `Navigation.Tracker.WillBeSent` | internal/go-webview2/pkg/edge/navigation_diagnostics_windows.go:179-197 | A main-document request enters the table, which is emptied first when it holds 64 entries |
| `Navigation.Tracker.LoadingFailed` | internal/go-webview2/pkg/edge/navigation_diagnostics_windows.go:213-228 | With the main frame known the failure of a request in the table is reported at once and alone, if and only if it is one of the main frame; before that it is only noted |
| `Navigation.Tracker.LoadingFinished` | internal/go-webview2/pkg/edge/navigation_diagnostics_windows.go:202-208 | A finished request leaves the table |
| `Navigation.Tracker.Flush` | internal/go-webview2/pkg/edge/navigation_diagnostics_windows.go:93-105 | Every failed entry leaves the table; each of the main frame is reported exactly once, in some order, and nothing else is; a callback that closes the tracker ends it behind its report |
| `Navigation.Tracker.Close` | internal/go-webview2/pkg/edge/navigation_diagnostics_windows.go:107-116 | Nothing is left in the table |
| `Navigation.Tracker.Starting` | internal/go-webview2/pkg/edge/navigation_diagnostics_windows.go:117-136 | A navigation start empties the table |
| `Navigation.Tracker.FrameTree` | internal/go-webview2/pkg/edge/navigation_diagnostics_windows.go:233-253 | Naming the main frame reports what had failed in it until then, and drops what had failed elsewhere |
| `Navigation.ReportedOnce` | internal/go-webview2/pkg/edge/navigation_diagnostics_windows.go:93-105 | No request is reported twice |
| `Navigation.Reports` | internal/go-webview2/pkg/edge/navigation_diagnostics_windows.go:93-253 | A report is about a main-frame request sent since the latest start, not finished, replaced or reported since, that failed so, before any close |
| `Certificate.Decision.Detected` | cmd/womprat/certificate.go:47-69 | Lets through exactly with a consent for the same URL and certificate and an eligible status, and uses it up; every way it changes prompt and consent |
| `Certificate.Decision.Proceed` | cmd/womprat/certificate.go:71-78 | Succeeds exactly for the token of the open prompt, which becomes the consent |
| `Certificate.Decision.Starting` | cmd/womprat/certificate.go:37-43 | Prompts end with a navigation, a consent with one elsewhere |
| `Certificate.Decision.Clear` | cmd/womprat/certificate.go:45 | Prompt, consent and current URL all go |
| `Certificate.AcceptedOnce` | cmd/womprat/certificate.go:47-78 | In every run one consent is used at most once |
| `Certificate.AcceptsStay` | cmd/womprat/certificate.go:47-78 | Every acceptance is matched with an earlier consent to a prompt for the same URL and certificate, with nothing between that ends either |
| `RefTable.BoxedOk` | cmd/womprat/frontend/rle/wasm_exec.js:167-216 | Boxing keeps the table in order: counts are references held, a slot in use is never given to another value, free slots are distinct and dead |
| `RefTable.FinalizedOk` | cmd/womprat/frontend/rle/wasm_exec.js:305-320 | Giving back a held reference frees its slot exactly with the last, and leaves every other count and value alone |
| `RefTable.StrayedOk` | cmd/womprat/frontend/rle/wasm_exec.js:305-320 | Giving back a reference to a slot that is not held frees nothing and keeps the table in order |
| `RefTable.UnboxBox` | cmd/womprat/frontend/rle/wasm_exec.js:147-216 | Unboxing undoes boxing, but for the sign of a zero |
| `RefTable.HeldShowsSame` | cmd/womprat/frontend/rle/wasm_exec.js:147-320 | As long as a reference is held it shows the same value, whatever else happens |
| `RefTable.Table.BoxValue` | cmd/womprat/frontend/rle/wasm_exec.js:167-216 | In place: the new table, and the reference of each kind of value with its type bits |
| `RefTable.Table.FinalizeRef` | cmd/womprat/frontend/rle/wasm_exec.js:305-320 | In place: the new table, for references that are held and those that are not |
| `RefTable.Table.UnboxValue` | cmd/womprat/frontend/rle/wasm_exec.js:147-159 | The value behind any reference, undefined past the table |
| `Relay.WriteFull` | cmd/womprat/socks.go:298-310 | Writes until all is taken or a write fails or takes nothing; all of the data, or an error and a prefix of it |
| `Relay.PushIsSteps` | cmd/womprat/socks.go:298-310 | Its writes are the steps of the machine that has the data to write |
| `Relay.RelayOne` | cmd/womprat/socks.go:312-325 | The loop does what the machine does with the answers of its two ends, from the start until that is over: same bytes read and delivered, same end, same answers used up |
| `Relay.RelayMeaning` | cmd/womprat/socks.go:312-325 | That is a run of its steps; it is cut if and only if its last write failed or took nothing, goes on until then or until a read has ended the stream, and without a cut has delivered everything read |
| `Relay.Direction` | cmd/womprat/socks.go:176-187 | Relay, then half-close, as a run of the machine; what is delivered is a prefix of what was read, and all of it without a cut |
| `Relay.RelayKeepsOrder` | cmd/womprat/socks.go:176-188 | In every interleaving of both directions: in-order prefixes, everything delivered before a clean close, sockets torn down only when both are over |
| `Relay.Independent` | cmd/womprat/socks.go:165-188 | Neither direction ever cuts the other: in every interleaving each does what its own steps do alone |
| `Relay.DirectionAmongBoth` | cmd/womprat/socks.go:174-188 | Either direction, when its steps are those its ends answer, ends the same wherever the other one's steps fall |
| `Tabs.TabList.Reorder` | cmd/womprat/main.go:489-527 | In place, on the backing array: the list becomes the reordered one |
| `Tabs.ReorderMeaning` | cmd/womprat/main.go:489-527 | Only the tab moves, directly before its target or to the end; the others keep their order |
| `Tabs.TabList.DropAt` | cmd/womprat/main.go:505-506 | In place: everything behind moves down |
| `Tabs.TabList.InsertAt` | cmd/womprat/main.go:520-524 | In place: the copied tail loses nothing |
| `Tabs.TabList.Close` | cmd/womprat/main.go:549-601 | When the active tab is closed the one behind it becomes active, else the one before it, else none; repeated closes within 250 ms are ignored |
| `Tabs.TabList.Forget` | cmd/womprat/main.go:529-547 | The tab goes, and is active no longer |
| `Tabs.TabList.Switch` | cmd/womprat/main.go:427-447 | Active only if present |
| `Tabs.TabList.ClearActive` | cmd/womprat/main.go:832-837 | No tab is active, the list stays |
| `Tabs.TabList.Upsert` | cmd/womprat/main.go:813-830 | A known tab keeps what the new one leaves empty |
| `Tabs.UpsertMeaning` | cmd/womprat/main.go:813-830 | Field by field: a known tab keeps its place and what the new one leaves empty of title, address and icon; a new one comes last |
| `Tabs.TabList.Register` | cmd/womprat/main.go:789-803 | A new tab becomes active, a known one is merged |
| `Tabs.TabList.Restore` | cmd/womprat/main.go:407-425 | Once, behind the gate, into an empty list; the first restored tab is active |
| `Tabs.UpsertDistinct` | cmd/womprat/main.go:813-830 | IDs stay distinct and all remain |

## Left out

- hTree: the Huffman tree builder and its length limiting; `BlockWriter.WBlk` takes it as a parameter of which it needs, for counts that add up to at most 25001, a prefix code of at most the given length with a code for every symbol used.
- dflt: the search for matches; `BlockWriter.WBlk` takes its tokens, counts and input range as given, with a stored block below 65536 bytes whenever it could be chosen.
- inflt with a dictionary or with partial input: only complete input without a dictionary is modelled, as `createZrleInflater` uses it; of what `createZrleInflater` makes of a payload that does not inflate, by falling back to `zlibSync`, only the first byte is known.
- Fields of 16 bits in `lcfreq`, `lf` and `df`: the counts are too small to wrap (at most 25000 tokens and 320 lengths) and are kept as plain numbers.
- The pipeline of the VNC client: the model runs without one, and with the decoder for raw rectangles and the client pixel format as they are by default. Indexed-colour formats, which throw, do not occur with it.
- Text decoding: the desktop name, the clipboard text and the clipping of both are arbitrary functions of their bytes; the pixel format of the server's initialisation is carried as its sixteen bytes.
- RfbClient.VncProtocol.Receive: what the object holds after an exception is not stated; nothing uses it then.
- Password authentication in the parser: the message that answers a challenge carries the challenge; its bytes are those of `VncAuth.BuildVncPasswordAuthResponse`.
- The bytes of the client's own messages: announced version, chosen type, pixel format, encodings and update requests are values of `Rfb.Message`; only the answer to a challenge is modelled as bytes.
- Rounding of a scaled channel: `Math.round` of a quotient of integers is taken exactly.
- RfbTalk.SessionIff: speaks of servers that the client can talk to, up to the end of a message, and excludes ZRLE as section 7.7.6 of RFC 6143 defines it; refusals, unknown encodings and broken payloads are in `Rfb`, `RfbChunks` and `ZrleStall`.
- Dialect.CompactShort: what tiles of several, or of run-length coded, compact pixels are misread as is not stated.
- Dialect.FirstRectangleSkipped: the rectangles behind the first begin in the middle of a stream; those whose first two bytes are no zlib header are skipped by `Dialect.NotInflatedSkipped`, and of the others nothing is said.
- Canvas drawing, pointer and keyboard input, and the other viewers in the front end.
- Validation and URL rules of saved tabs and hosts, JSON and encryption: arbitrary functions of the settings model; a save is one step that replaces the file or fails.
- Settings handlers as HTTP handlers: requests reach the model already checked; the handler for the exit node appears there without its call to the backend, which `ExitNode.App.Choose` models.
- `tsRetryMu` and `exitRetryMu`: what runs under them blocks on nothing, so each such stretch is one step of the worker model; timers may fire at any time.
- The backend of the exit node: preferences change only through these edits, each of which takes effect as a whole or not at all; everything it answers is arbitrary.
- Callbacks of the navigation tracker that start a navigation from inside a report: only closing from inside is modelled.
- Certificate.Decision.Detected: the URL normalizer is an arbitrary function.
- RefTable.HeldShowsSame: references to one slot are told apart only by their number, so a guest that gives one back twice gives back another that it holds.
- Relay.RelayOne: reads and writes are finite scripts, so a peer that answers with nothing for ever is not modelled.
- Persisting tabs behind each tab operation, and the views and windows shown for them: see the settings model for the saving itself.
- WebView2, Win32 and WebKitGTK code, HTTP plumbing, SSH and RDP sessions, tsnet and its resolver, DNS messages, downloads, SQLite walks and real cryptography: foreign calls and user interface.
