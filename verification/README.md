# Verified models of the hard parts of the bundled Grafana plugins

The server in this repository is launch code around a library; its algorithms are in the minified
plugin bundles.  This project models the intricate ones in Dafny and proves what they are for.

- **DEFLATE codec** (`Bits`, `BitStream`, `Canonical`, `Optimality`, `Huffman`, `RunLength`, `Lz77`, `Format`,
  `OutBuffer`, `Counts`, `BlockWriter`, `Deflate`, `Inflate`): module 8727 of `608.js`.  `Format` says what the
  bits of a block are, independently of both directions; the writer is proved to produce them and
  the reader to understand them, so the round trip holds for every input and level.  The
  reader enlarges its output buffer at block starts and before copies only, so a long enough run of
  literals overruns it: `OutBuffer` states exactly which valid streams lose bytes that way, with one
  that does; streams with blocks of up to 130815 symbols never do.  The tight
  bounds of the flush thresholds (symbol buffer, 16-bit stored length, output space, tree height,
  31-bit debt) are proved on the way, and so is that the tree of the two queues is optimal among
  all prefix codes.  What is sent is determined too: every symbol is what the walk along the hash
  chains finds, every block is full, and its codes are those planned for its own counts.  Bitwise operators act on non-negative integers, bit by bit.
- **Checksums** (`Checksums`, `Crc32`): `G`, and `$` with `W`, of the same module.
- **Heap's permutation generator** (`Permutations`): `v` of module 3062 of `608.js`.
- **Sandwich merge** (`Sandwich`): `Je` of module 3062.
- **Flame-graph levels** (`FlameGraph`): the converter in module 8629 of `702.js`, and
  `initLevels` of `608.js`, composed.
- **Sharded query runner and frame merge** (`ShardRunner`, `FrameMerge`): module 2854 of `747.js`.
- **Tree balancing** (`Balance`): module 2344 of the log explorer's `module.js`.
- **Object slab** (`Slab`): modules 1854 of `854.js` and 6944 of `944.js`, which are alike.
- **Bounded task buffer** (`TaskBuffer`): module 5377 of the profiles plugin's `module.js`.

Code that works step by step is a method with loops, or a class whose methods change its fields;
what it computes is stated by functions and predicates, about which the lemmas are proved.  The
minified sources have very long lines, so a citation names the bundle line, the list above the
module, and the parenthesis in the last column the function there.  `dafny verify dfyconfig.toml` checks everything.

Ghost parameters stand for what a stream is meant to hold: the inflater is a total function of its
bytes, and its contract speaks of every list of blocks those bytes may be the encoding of.  What
comes from outside (answers and when they come, the order in which grouping lists its groups, the
closest index in a sorted array, the rounding of a product by a tenth) is a parameter or a choice
left open, so every statement is about all of them.

## Model

| member | source | states |
|---|---|---|
| Deflate.RoundTrip | grafana/plugins/grafana-pyroscope-app/608.js:1 | (V then z) for every byte sequence and every level from 0 to 9, inflating what the one-shot deflater wrote gives back exactly that sequence, and the stream has at most n + 5 * (1 + ceil(n / 7000)) bytes |
| Deflate.Deflate | grafana/plugins/grafana-pyroscope-app/608.js:1 | (V) the output at every level is a stream of RFC 1951 for some blocks of at most 25000 symbols each, the last one flagged, that stand for the input; every symbol sent is the one that the level's walk along the hash chains finds at its place, so where the three bytes at a position are those at the last position with their hash, within the window, there is a copy at least as long as from there; every block but the last is full, and every coded block has the codes planned for its own counts if they take fewer bits than the fixed ones; level 0 sends nothing but stored blocks of 65535 bytes and a rest |
| Deflate.DeflateCoded | grafana/plugins/grafana-pyroscope-app/608.js:1 | (V) the same for levels 1 to 9, whatever the hash width, with the length that is enough and the number of places to try that the level has |
| Deflate.DeflateStored | grafana/plugins/grafana-pyroscope-app/608.js:1 | (V, P) level 0: block k holds the bytes from 65535 * k on, 65535 of them or what is left; the extra empty block after the flagged one does not disturb the stream |
| Deflate.Advance | grafana/plugins/grafana-pyroscope-app/608.js:1 | (V) one position of the matcher: it becomes the head of its chain and remembers the head before it, so every head is the last position with its hash and every cell the one before; unless a copy covers it, its symbol is what the search finds; the symbols waiting still stand for exactly the bytes passed, with room for the tail in the buffer |
| Deflate.SendFull | grafana/plugins/grafana-pyroscope-app/608.js:1 | (V) a block is sent exactly when there are 24577 symbols or 7001 copies waiting and more than 423 bytes left |
| Deflate.TakeSymbol | grafana/plugins/grafana-pyroscope-app/608.js:1 | (V) the symbol taken at a position is the copy that the search finds there, or a literal if it finds none |
| Deflate.SoughtSaves | grafana/plugins/grafana-pyroscope-app/608.js:1 | (V) what the search finds is a copy, and as long as the one from the head of the chain, whenever the three bytes there are the same and near enough |
| Deflate.HeadsNext | grafana/plugins/grafana-pyroscope-app/608.js:1 | (V) heads stay the last position with their hash |
| Deflate.AddTail | grafana/plugins/grafana-pyroscope-app/608.js:1 | (V) the last bytes become literals and the symbols waiting then stand for the rest of the input |
| Deflate.Finish | grafana/plugins/grafana-pyroscope-app/608.js:1 | (V) the last block closes a valid stream that fits the space reserved for it |
| Deflate.OutputFits | grafana/plugins/grafana-pyroscope-app/608.js:1 | (V, T) the space bound: blocks of at least 21003 bytes each cost at most 42 bits more than their bytes, and a short last block is paid for by the reserve |
| Deflate.Deflater.AddLiteral | grafana/plugins/grafana-pyroscope-app/608.js:1 | (V) a literal extends what the waiting symbols stand for by one byte, with counts and buffer in step |
| Deflate.Deflater.AddCopy | grafana/plugins/grafana-pyroscope-app/608.js:1 | (V) a match found by the search extends it by its length, with the packed entry, the counts and the extra bits in step |
| Deflate.Deflater.Flush | grafana/plugins/grafana-pyroscope-app/608.js:1 | (V) one block written: it stands for the bytes collected, and costs at most what a stored block would, or what nine bits a symbol and 22 a copy allow |
| Deflate.Deflater.FlushFull | grafana/plugins/grafana-pyroscope-app/608.js:1 | (V) after a full block nothing waits, all counters are zero and all bytes so far are sent |
| Deflate.Deflater.ClearCounts | grafana/plugins/grafana-pyroscope-app/608.js:1 | (V) clearing 286 and 30 counters leaves all 288 and 32 at zero |
| Deflate.Deflater.constructor | grafana/plugins/grafana-pyroscope-app/608.js:1 | (V) a new compressor has sent nothing and has nothing waiting, in a zeroed buffer of n + 5 * (1 + ceil(n / 7000)) bytes |
| Lz77.FindMatch | grafana/plugins/grafana-pyroscope-app/608.js:1 | (V) the walk along the chain, whatever the chain holds: the places tried are the head and then one predecessor after another, from the link with the widest gap after every better copy, each inside the window; the walk ends at the end of the chain, after the allowed number of places, or with a copy long enough, and not before; what is returned is the longest copy from any place tried, the first of that length, of 3 to 258 equal bytes, and no copy if no place has three |
| Lz77.HeadFound | grafana/plugins/grafana-pyroscope-app/608.js:1 | (V) with at least two places to try, a head whose three bytes are those at the position gives a copy at least that long |
| Lz77.RarestStart | grafana/plugins/grafana-pyroscope-app/608.js:1 | (V) after a better copy the walk goes on from the first of the links inside it with the widest gap |
| Lz77.HashBit | grafana/plugins/grafana-pyroscope-app/608.js:1 | (V) every bit of the hash is the sum modulo 2 of one bit of each of the three bytes, moved by the shift for the hash width |
| Lz77.MatchLength | grafana/plugins/grafana-pyroscope-app/608.js:1 | (V) the match is as long as the bytes agree, up to the limit, and no longer |
| Lz77.CopyOfMatch | grafana/plugins/grafana-pyroscope-app/608.js:1 | (V, z) replaying a match, overlapping or not, reproduces the bytes it was found at |
| Lz77.BuildLengths | grafana/plugins/grafana-pyroscope-app/608.js:1 | (s) the computed length tables are those of section 3.2.5 of RFC 1951, with 258 on its own code, and every length from 3 to 258 has the entry of its code and extra value |
| Lz77.BuildDistances | grafana/plugins/grafana-pyroscope-app/608.js:1 | (s) the same for the 30 distance codes and all distances up to 32768 |
| Lz77.BuildTables | grafana/plugins/grafana-pyroscope-app/608.js:1 | (s) the four tables that both directions then look lengths, distances and codes up in |
| Lz77.LenCodeOk | grafana/plugins/grafana-pyroscope-app/608.js:1 | (s) every length has a code whose extra bits can hold the rest |
| Lz77.DistCodeOk | grafana/plugins/grafana-pyroscope-app/608.js:1 | (s) every distance has a code whose extra bits can hold the rest |
| Lz77.PackedFields | grafana/plugins/grafana-pyroscope-app/608.js:1 | (V, N) a copy packed into one number is unpacked by the shifts and masks of the block writer into its two codes and extra values |
| BlockWriter.WriteBlock | grafana/plugins/grafana-pyroscope-app/608.js:1 | (N) whichever of stored, fixed and dynamic is chosen, the bits written are those of a valid block for the bytes covered, with the symbols collected if it is coded, at the right length, and for n bytes never more than 8 * (n + 5) + 2 bits; it is at most as long as the fixed block, as the planned dynamic block, and exceeds a stored one by at most seven bits less its padding |
| BlockWriter.WriteChosen | grafana/plugins/grafana-pyroscope-app/608.js:1 | (N) the type chosen takes the fewest bits when a stored block is counted with eight bits of padding, and is a stored block exactly if that count is at most both others |
| BlockWriter.StoredFits | grafana/plugins/grafana-pyroscope-app/608.js:1 | (V, N, P) a stored block chosen by the cost test has a length that fits its 16-bit field |
| BlockWriter.Measure | grafana/plugins/grafana-pyroscope-app/608.js:1 | (N) the two costs compared are the exact sizes of the fixed and the dynamic block, and a fixed block is at most nine bits a symbol and 22 a copy |
| BlockWriter.MakePlan | grafana/plugins/grafana-pyroscope-app/608.js:1 | (N) the plan of a dynamic block is valid: codes for all symbols that occur, lengths within 15 and 7 bits, run-length codes that expand to the lengths; and frugal: all three codes are the best for their counts unless cut to the limit, fill the code space and give no symbol a longer code than a rarer one, runs of lengths are sent by repeats, and no length of the code-length code is sent in vain |
| BlockWriter.BodyCost | grafana/plugins/grafana-pyroscope-app/608.js:1 | (N) symbol counts times code lengths, plus extra bits, is the size of the body |
| BlockWriter.HeaderCost | grafana/plugins/grafana-pyroscope-app/608.js:1 | (N) the size of a dynamic header, from the number of code-length lengths sent and the run-length symbols |
| BlockWriter.WriteStored | grafana/plugins/grafana-pyroscope-app/608.js:1 | (P) a stored block: padding to a byte, length and its complement, then the bytes, and nothing else in the buffer changes |
| BlockWriter.WriteHeader | grafana/plugins/grafana-pyroscope-app/608.js:1 | (N) a dynamic header is written bit for bit as section 3.2.7 of RFC 1951 lays it out |
| BlockWriter.WriteBody | grafana/plugins/grafana-pyroscope-app/608.js:1 | (N) symbols, extra bits and end mark are written with the given codes |
| BlockWriter.WriteFixed | grafana/plugins/grafana-pyroscope-app/608.js:1 | (N) a fixed block: type bits and body with the fixed codes |
| BlockWriter.WriteDynamic | grafana/plugins/grafana-pyroscope-app/608.js:1 | (N) a dynamic block: type bits, header and body with the planned codes |
| Counts.BitsCounted | grafana/plugins/grafana-pyroscope-app/608.js:1 | (N, B) the dot product the chooser computes is the number of bits the symbols take |
| Counts.RleBitsCounted | grafana/plugins/grafana-pyroscope-app/608.js:1 | (N, B) the same for the run-length symbols with their 2, 3 and 7 extra bits |
| Counts.FixedBound | grafana/plugins/grafana-pyroscope-app/608.js:1 | (N, B) with the fixed codes a literal takes at most 9 bits and a copy at most 31 |
| Counts.WeighCounts | grafana/plugins/grafana-pyroscope-app/608.js:1 | (B) the loop computes the dot product of counts and lengths |
| Huffman.BuildLengths | grafana/plugins/grafana-pyroscope-app/608.js:1 | (D) exactly the symbols that occur get a length, none above the limit, the code fits, and the list ends with a used symbol; one symbol alone gets one bit, and two or more fill the code space exactly; no symbol has a longer code than one that occurs less often; unless an optimal code has a length above the limit, no code for these symbols takes fewer bits |
| Huffman.BuildTree | grafana/plugins/grafana-pyroscope-app/608.js:1 | (D) merging by two queues in one array, with a sentinel, builds one tree with exactly the given leaves, in which every inner node weighs what its children do and no grandchild outweighs the other child; what its joins cost bounds the weighted sum of every list of lengths whose code fits, so no prefix code for these weights is shorter |
| Huffman.TreeLengths | grafana/plugins/grafana-pyroscope-app/608.js:1 | (D) the depths of the finished tree are a complete code, and no code for the symbols that occur, whatever its longest length, takes fewer bits in all |
| Huffman.PaintCost | grafana/plugins/grafana-pyroscope-app/608.js:1 | (D) depths times weights, summed over the leaves of a tree, is what its joins cost |
| Huffman.BestKept | grafana/plugins/grafana-pyroscope-app/608.js:1 | (D) the node taken first and the one taken next are the two lightest left, so joining them keeps the bound |
| Optimality.Reduced | grafana/plugins/grafana-pyroscope-app/608.js:1 | (D) from any lengths that fit come lengths that fit for the weights with the two lightest joined, which save at least the weight of both |
| Optimality.LeadsOn | grafana/plugins/grafana-pyroscope-app/608.js:1 | (D) so a bound for the joined weights, with what the join cost added, is a bound for those before |
| Optimality.BothDeep | grafana/plugins/grafana-pyroscope-app/608.js:1 | (D) the two lightest symbols may as well have the longest codes |
| Optimality.Shortened | grafana/plugins/grafana-pyroscope-app/608.js:1 | (D) a symbol alone at the greatest length can be one shorter |
| Huffman.HeightBound | grafana/plugins/grafana-pyroscope-app/608.js:1 | (D) 25001 symbols give a tree of at most 20 levels, since a node's weight is at least a Fibonacci number of its height |
| Huffman.PaintKraft | grafana/plugins/grafana-pyroscope-app/608.js:1 | (D) the depths of a finished tree have Kraft sum exactly 1, whatever its shape |
| Huffman.AssignDepths | grafana/plugins/grafana-pyroscope-app/608.js:1 | (I) the recursive walk gives every leaf its depth and returns the height |
| Huffman.Clip | grafana/plugins/grafana-pyroscope-app/608.js:1 | (D) cutting lengths to the limit keeps sum of 2^(limit - length) = 2^limit + debt, with a debt below 2^31 |
| Huffman.Lengthen | grafana/plugins/grafana-pyroscope-app/608.js:1 | (D) lengthening codes one step at a time pays the debt off, never runs out of symbols with room, and overpays by no more than there are symbols of full length before the last one |
| Huffman.Shorten | grafana/plugins/grafana-pyroscope-app/608.js:1 | (D) all that was overpaid is given back: afterwards the code fills its space exactly, and lengths still fall along the list |
| Huffman.Limit | grafana/plugins/grafana-pyroscope-app/608.js:1 | (D) the three loops together turn the tree's lengths into a code within the limit for the same symbols that fills its space exactly, no length above one before it in the list |
| Huffman.Overpaid | grafana/plugins/grafana-pyroscope-app/608.js:1 | (D) why all can be given back: when the last step starts from length g, the symbols from there on fill a whole number of shares of 2^-g below the whole, so more symbols of full length stand before than are overpaid |
| Huffman.ListKraft | grafana/plugins/grafana-pyroscope-app/608.js:1 | (D) the shares of the listed symbols are the Kraft sum |
| Huffman.BestFair | grafana/plugins/grafana-pyroscope-app/608.js:1 | (D) an optimal code gives no symbol a longer code than a rarer one, else the two would change places |
| Huffman.CutFair | grafana/plugins/grafana-pyroscope-app/608.js:1 | (D) and neither does the cut one, since among equally deep symbols the rarer are lengthened first |
| Canonical.EncodeTable | grafana/plugins/grafana-pyroscope-app/608.js:1 | (v) the encoding table holds the canonical codes of section 3.2.2 of RFC 1951, bits reversed for sending |
| Canonical.DecodeTable | grafana/plugins/grafana-pyroscope-app/608.js:1 | (v) for any lengths with Kraft sum at most 1, every window that begins with a symbol's code decodes to that symbol and its length; for any lengths at all the entries stay in range |
| Canonical.TablesInverse | grafana/plugins/grafana-pyroscope-app/608.js:1 | (v) what the encoding table sends the decoding table recognises, whatever bits follow |
| Canonical.CodeBitsPrefixFree | grafana/plugins/grafana-pyroscope-app/608.js:1 | (v) no code is a prefix of another |
| Canonical.FirstCodes | grafana/plugins/grafana-pyroscope-app/608.js:1 | (v) the 16-bit cells hold the first code of every length, modulo 65536 |
| Bits.Rev15Bit | grafana/plugins/grafana-pyroscope-app/608.js:1 | (table p) the table of swapped bits, pairs, nibbles and bytes reverses 15 bits |
| RunLength.RunLengths | grafana/plugins/grafana-pyroscope-app/608.js:1 | (L) the run-length coder: trailing zeros trimmed, what it emits expands back to the lengths, every symbol and field is in range, and every run takes as many symbols as its repeats need: zeros by 138, other lengths by 6 after the first, a rest of more than two by one symbol |
| RunLength.RunAdded | grafana/plugins/grafana-pyroscope-app/608.js:1 | (L) the number of symbols of a list is that of its runs together, whatever the list before |
| RunLength.ExpandJoin | grafana/plugins/grafana-pyroscope-app/608.js:1 | (L) runs of the literal and of the distance lengths may be read as one list, copies reaching across |
| BitStream.Write2 | grafana/plugins/grafana-pyroscope-app/608.js:1 | (E) the two-byte writer puts up to 9 bits behind those already there and changes nothing else |
| BitStream.Write3 | grafana/plugins/grafana-pyroscope-app/608.js:1 | (F) the three-byte writer does so for up to 17 bits |
| BitStream.Read2Value | grafana/plugins/grafana-pyroscope-app/608.js:1 | (C) the two-byte reader gets back up to 9 bits put there |
| BitStream.Peek3Value | grafana/plugins/grafana-pyroscope-app/608.js:1 | (k) the three-byte reader gets back up to 17 bits put there |
| BitStream.BytesHold | grafana/plugins/grafana-pyroscope-app/608.js:1 | (P, R) bytes at a byte boundary are their bits, lowest first |
| Inflate.Inflate | grafana/plugins/grafana-pyroscope-app/608.js:1 | (z) on the bits of any sequence of valid blocks, up to the one with the final flag, the inflater succeeds, and returns exactly the bytes they stand for if and only if its output buffer keeps them: no literal but 0 falls outside it and it reaches the last byte, both computed from the blocks and the length of the input alone; on any other input it ends too; nothing gives nothing, a first block of the fourth type or a stored one longer than the data the error for it |
| OutBuffer.RoomyKept | grafana/plugins/grafana-pyroscope-app/608.js:1 | (z, g) the buffer keeps everything if no literal overruns the 131072 bytes of room made at the start of its block and before each copy |
| OutBuffer.FewRoomy | grafana/plugins/grafana-pyroscope-app/608.js:1 | (z, g) which no block of at most 130815 symbols does |
| OutBuffer.LongRunLost | grafana/plugins/grafana-pyroscope-app/608.js:1 | (z, g) a valid stream for which it fails: 131073 zero bytes as one-bit literals of one dynamic block, of which 131072 are returned without an error |
| OutBuffer.CutTracks | grafana/plugins/grafana-pyroscope-app/608.js:1 | (z, g) what is returned equals what was meant exactly if nothing but zeros was lost and the buffer reaches the last byte |
| OutBuffer.LiteralTracks | grafana/plugins/grafana-pyroscope-app/608.js:1 | (z, g) a literal outside the buffer is lost, and reads as 0 once the buffer reaches there |
| OutBuffer.CopyTracks | grafana/plugins/grafana-pyroscope-app/608.js:1 | (z, g) a copy repeats what the buffer holds, and mends no byte that was lost |
| Deflate.NothingLost | grafana/plugins/grafana-pyroscope-app/608.js:1 | (V) blocks of at most 25000 symbols, as the deflater sends them, are always kept |
| Inflate.InflateBlock | grafana/plugins/grafana-pyroscope-app/608.js:1 | (z) one block, with any number of symbols: its flag, its end, and the buffer in step with its bytes and with the extent computed for it; the error for an invalid type is given exactly for the fourth type, and a stored block fails exactly if the data ends within it |
| Inflate.InflateBody | grafana/plugins/grafana-pyroscope-app/608.js:1 | (z) the symbol loop, to the end mark: literals and copies replayed, the buffer holding them exactly as far as the extent computed says |
| Inflate.InflateStored | grafana/plugins/grafana-pyroscope-app/608.js:1 | (z) a stored block's bytes are appended, in room made for them, as many as its length field says, or it fails if they are not there |
| Inflate.ReadHeader | grafana/plugins/grafana-pyroscope-app/608.js:1 | (z) the two lists of code lengths of a dynamic header are read back |
| Inflate.ReadLengths | grafana/plugins/grafana-pyroscope-app/608.js:1 | (z) the loop over symbols 16, 17 and 18 expands exactly the run-length codes |
| Inflate.ReadStep | grafana/plugins/grafana-pyroscope-app/608.js:1 | (z) one symbol is read back with its extra bits by table look-up, and every step consumes bits; on any data it fails exactly beyond the end, at bits that are no code, or at a distance that is none, each with its error |
| Inflate.CopyWithin | grafana/plugins/grafana-pyroscope-app/608.js:1 | (z) copying byte by byte from a distance, overlaps included |
| Format.SymsAt | grafana/plugins/grafana-pyroscope-app/608.js:1 | (N, z) the bits of a list of symbols hold the bits of each of them at its place |
| Format.BlocksAt | grafana/plugins/grafana-pyroscope-app/608.js:1 | (V, z) the bits of a list of blocks hold the bits of each of them at its place |
| Format.FixedComplete | grafana/plugins/grafana-pyroscope-app/608.js:1 | (v) the fixed codes of section 3.2.6 of RFC 1951 use up the code space exactly |
| Checksums.Adler.Push | grafana/plugins/grafana-pyroscope-app/608.js:1 | (G) with the reduction put off for up to 2655 bytes and then done as low half plus 15 times high half, both sums stay congruent to those of section 2.2 of RFC 1950 over everything pushed, for every way of cutting the data |
| Checksums.Adler.Span | grafana/plugins/grafana-pyroscope-app/608.js:1 | (G) within a span both sums stay below 2^31 |
| Checksums.Adler.Digest | grafana/plugins/grafana-pyroscope-app/608.js:1 | (G) the number returned, written low byte first, is the trailer of RFC 1950 with its high bytes first |
| Checksums.FoldMod | grafana/plugins/grafana-pyroscope-app/608.js:1 | (G) 65536 is 15 modulo 65521 |
| Crc32.Sum32.Push | grafana/plugins/grafana-pyroscope-app/608.js:1 | ($) the table-driven register equals the division one bit at a time over everything pushed, for every way of cutting the data |
| Crc32.ByTable | grafana/plugins/grafana-pyroscope-app/608.js:1 | (W, $) why the table is enough: division is linear, and the upper bytes only move down |
| Crc32.MakeTable | grafana/plugins/grafana-pyroscope-app/608.js:1 | (W) every entry is eight steps from its byte |
| Crc32.Sum32.Digest | grafana/plugins/grafana-pyroscope-app/608.js:1 | ($) the digest is the CRC-32 of section 8 of RFC 1952: the remainder, by long division with coefficients modulo 2, of the bits of everything pushed, moved up by 32, by x^32 + x^26 + x^23 + x^22 + x^16 + x^12 + x^11 + x^10 + x^8 + x^7 + x^5 + x^4 + x^2 + x + 1, with the first 32 bits and the result turned over |
| Crc32.CrcIsRemainder | grafana/plugins/grafana-pyroscope-app/608.js:1 | ($) the register is the remainder of the division of polynomials |
| Crc32.TapCoefficient | grafana/plugins/grafana-pyroscope-app/608.js:1 | ($) the constant of the table is the polynomial of the standard below x^32, its lowest power in the highest bit |
| Crc32.OneByteNoticed | grafana/plugins/grafana-pyroscope-app/608.js:1 | ($) what the sum is for: one wrong byte anywhere changes it |
| Permutations.Permutations | grafana/plugins/grafana-pyroscope-app/608.js:1 | (v) n! arrays, among them every rearrangement of the input and nothing else, and no array twice if the elements are distinct |
| Permutations.Permute | grafana/plugins/grafana-pyroscope-app/608.js:1 | (v) the loop over counters ends and records exactly what the recursion on prefixes records |
| Permutations.EndClosedAt | grafana/plugins/grafana-pyroscope-app/608.js:1 | (v) what a level leaves behind: the ends exchanged for an odd number of elements, a fixed rearrangement for an even one |
| Permutations.RoundLast | grafana/plugins/grafana-pyroscope-app/608.js:1 | (v) which element stands last in each round |
| Permutations.AllDistinct | grafana/plugins/grafana-pyroscope-app/608.js:1 | (v) for distinct elements no array is recorded twice |
| Permutations.AllComplete | grafana/plugins/grafana-pyroscope-app/608.js:1 | (v) every rearrangement is recorded |
| Permutations.MadeCount | grafana/plugins/grafana-pyroscope-app/608.js:1 | (v) n! - 1 arrays are added to the first |
| Sandwich.MergeItems | grafana/plugins/grafana-pyroscope-app/608.js:1 | (Je) the work list ends and builds the tree of label paths: one node for every path of labels that some item has and none for any other, its value the sum over all items with that path, its indexes those of all these items, each list whole and one after the other, siblings side by side, the sum below a node exactly what lies below its items, and as many levels as the deepest path has, none empty and each in order; all nodes together stand for every item of the trees once |
| Sandwich.AllMerged | grafana/plugins/grafana-pyroscope-app/608.js:1 | (Je) an empty work list means that the tree of label paths is complete |
| Sandwich.AllReached | grafana/plugins/grafana-pyroscope-app/608.js:1 | (Je) every path of labels that leads to an item has a node |
| Sandwich.GroupsKeepSum | grafana/plugins/grafana-pyroscope-app/608.js:1 | (Je) grouping by label loses nothing and counts nothing twice |
| Sandwich.WithinParent | grafana/plugins/grafana-pyroscope-app/608.js:1 | (Je) the children of a node stay within it exactly if what lies next to its items sums to no more than they do; so they do if each item contains what lies next to it |
| Sandwich.Visit | grafana/plugins/grafana-pyroscope-app/608.js:1 | (Je) one node made: sum of values, indexes of all items, start behind the siblings already there |
| Sandwich.IndexesJoin | grafana/plugins/grafana-pyroscope-app/608.js:1 | (Je) entry j of item i stands behind the lists of the items before, j places on, and there are no further entries |
| Sandwich.NextsJoin | grafana/plugins/grafana-pyroscope-app/608.js:1 | (Je) so it is for what lies next to the items |
| Sandwich.LabelledSelects | grafana/plugins/grafana-pyroscope-app/608.js:1 | (Je) the items of a label are those with it, in their order, each once |
| Sandwich.ReachedAt | grafana/plugins/grafana-pyroscope-app/608.js:1 | (Je) the items of a path are exactly those that labels lead to, from the roots, one step at a time |
| Sandwich.TurnOver | grafana/plugins/grafana-pyroscope-app/608.js:1 | (Je) in the direction of the callers the levels are reversed and renumbered |
| FlameGraph.Redraw | grafana/plugins/grafana-pyroscope-app/702.js:21 | (x then initLevels) for well-formed levels the table has every cell once, and the levels rebuilt from it have the given rows in their order, every cell with its width below the node of the cell it begins in, among the children of that node and side by side with its siblings; there are no further rows and no further cells |
| FlameGraph.RedrawProfile | grafana/plugins/grafana-pyroscope-app/702.js:21 | (x then initLevels) the same from the rows of numbers: those of any well-formed cells are decoded to these cells, then drawn; said of the numbers alone, every node has the width they give, both halves added in a comparison, and hangs below the first cell above that holds the place where they let it begin |
| FlameGraph.DrawnByNumbers | grafana/plugins/grafana-pyroscope-app/702.js:21 | (x) what is drawn, said of the numbers of the rows alone |
| FlameGraph.HolderOfNumbers | grafana/plugins/grafana-pyroscope-app/702.js:21 | (x) the first cell that holds a place, found from the numbers |
| FlameGraph.NoMoreRows | grafana/plugins/grafana-pyroscope-app/608.js:1 | (x then initLevels) the drawn levels are as many as the rows at most, each with as many nodes as the row has cells |
| FlameGraph.OneDecoding | grafana/plugins/grafana-pyroscope-app/702.js:21 | (_) two rows of cells with the same numbers are the same |
| FlameGraph.Decode | grafana/plugins/grafana-pyroscope-app/702.js:21 | (_) a row of 4 or 7 numbers a cell is decoded without loss |
| FlameGraph.BuildTree | grafana/plugins/grafana-pyroscope-app/702.js:21 | (x) every cell is hung below the first cell above that holds its start |
| FlameGraph.HangRow | grafana/plugins/grafana-pyroscope-app/702.js:21 | (x) the same for one row, children from left to right |
| FlameGraph.FindHolder | grafana/plugins/grafana-pyroscope-app/702.js:21 | (x) the scan along the row above finds the first cell that holds a position |
| FlameGraph.ShapeOfOk | grafana/plugins/grafana-pyroscope-app/702.js:21 | (x) parents rise from left to right along a row |
| FlameGraph.Flatten | grafana/plugins/grafana-pyroscope-app/702.js:21 | (x) the work list with the children put in front is preorder |
| FlameGraph.TableRows | grafana/plugins/grafana-pyroscope-app/702.js:21 | (x) preorder visits the cells of every row from left to right, without a gap |
| FlameGraph.TableOnce | grafana/plugins/grafana-pyroscope-app/702.js:21 | (x) no cell is in the table twice |
| FlameGraph.PreorderFollows | grafana/plugins/grafana-pyroscope-app/702.js:21 | (x) the level rises by one at most, and the last cell seen one row up is the parent |
| FlameGraph.InitLevels | grafana/plugins/grafana-pyroscope-app/608.js:1 | (initLevels) from a level column with one root, every row becomes a node below the last one a level up, a node's children are exactly the rows below it in order, side by side from its start, and each level lists its nodes in order, none empty |
| FlameGraph.HasPlace | grafana/plugins/grafana-pyroscope-app/608.js:1 | (initLevels) every node but the root is among its parent's children, and starts where those before it end |
| FlameGraph.OneRebuilding | grafana/plugins/grafana-pyroscope-app/608.js:1 | (initLevels) a table can be rebuilt in one way only: parents, children, starts and rows are determined |
| FlameGraph.AddRow | grafana/plugins/grafana-pyroscope-app/608.js:1 | (initLevels) one row: below the node just made, or beside the last one of its level |
| FlameGraph.RebuiltParent | grafana/plugins/grafana-pyroscope-app/608.js:1 | (initLevels) the parent found from the column is the node of the cell's parent |
| ShardRunner.Run | grafana/plugins/grafana-lokiexplore-app/747.js:51 | (N) every run ends, whatever is answered; if it ends well the merged groups are the shard list followed by the unsharded group, each once and in order; if it fails they are a beginning of that; it fails exactly if there was a parse error or a fifth time-out or broken stream at one position with groups of one; what was sent and merged is the log that the answers determine |
| ShardRunner.Runner.OnResponse | grafana/plugins/grafana-lokiexplore-app/747.js:51 | (u, next and complete) one response: retried after a time-out with the square root of the group size or the same shard later, up to four times; else merged with its group, and followed by the next group at the size the response asks for, cut to seven tenths of what is left; every step brings the run nearer its end |
| ShardRunner.Runner.OnBroken | grafana/plugins/grafana-lokiexplore-app/747.js:51 | (u, error) a broken stream counts as a time-out and merges nothing |
| ShardRunner.Runner.OnTimer | grafana/plugins/grafana-lokiexplore-app/747.js:51 | (b) the timer repeats the query |
| ShardRunner.Runner.Retry | grafana/plugins/grafana-lokiexplore-app/747.js:51 | (b) which retry follows a time-out, and when the run becomes fatal |
| ShardRunner.Runner.Merge | grafana/plugins/grafana-lokiexplore-app/747.js:51 | (u, next and complete) a merged response moves the run to the next group, or completes it |
| ShardRunner.Runner.Advance | grafana/plugins/grafana-lokiexplore-app/747.js:51 | (f) past the last shard the unsharded query follows, and after it completion |
| ShardRunner.Runner.Query | grafana/plugins/grafana-lokiexplore-app/747.js:51 | (u) a doomed run sends nothing more and completes in error |
| ShardRunner.Runner.Finish | grafana/plugins/grafana-lokiexplore-app/747.js:51 | (m) the subscriber is completed once, in error exactly if the fatal flag is set |
| ShardRunner.Runner.constructor | grafana/plugins/grafana-lokiexplore-app/747.js:51 | (N) the first group has the square root of the number of shards, rounded down |
| ShardRunner.Wanted | grafana/plugins/grafana-lokiexplore-app/747.js:51 | (N, size update) the size asked for, band by band: half as much again up to one second, eleven tenths rounded up below six, nine tenths rounded up below twenty, half from there on, one more after an empty answer, half without a time, the same if none is reported; always at least 1 |
| ShardRunner.Capped | grafana/plugins/grafana-lokiexplore-app/747.js:51 | (N, size cap) the size sent is the one asked for, or the greatest one within seven tenths of what is left, or 1 |
| ShardRunner.RootShrinks | grafana/plugins/grafana-lokiexplore-app/747.js:51 | (N) the square root of a group of two or more is smaller and at least 1 |
| FrameMerge.Frame.Merge | grafana/plugins/grafana-lokiexplore-app/747.js:51 | (response combiner) a frame merged in: times stay strictly increasing and are those of either frame; every paired column is as long as the times, and at every time the sum of the two; totals add up; unpaired columns are kept |
| FrameMerge.Frame.MergeRow | grafana/plugins/grafana-lokiexplore-app/747.js:51 | (k and the splice) one row added where its time is, or spliced in, column by column |
| FrameMerge.PlaceDivides | grafana/plugins/grafana-lokiexplore-app/747.js:51 | (C) the place found by the closest index splits the times into earlier and not earlier |
| FrameMerge.Pair | grafana/plugins/grafana-lokiexplore-app/747.js:51 | (F) columns are paired by name if exactly one has it, else by position |
| FrameMerge.LongIff | grafana/plugins/grafana-lokiexplore-app/747.js:51 | (response combiner) columns stay equally long exactly if every column finds a source column or the source brings no new time |
| FrameMerge.ColumnsPart | grafana/plugins/grafana-lokiexplore-app/747.js:51 | (response combiner) a pair of frames where they part: a source with the time alone and a new time leaves the other column shorter |
| FrameMerge.MergeAll | grafana/plugins/grafana-lokiexplore-app/747.js:51 | (response combiner) answers merged into a frame one after the other, each with a layout of its own that finds every column, pass through a chain of states for their arranged columns |
| FrameMerge.MergeRun | grafana/plugins/grafana-lokiexplore-app/747.js:51 | (response combiner) a run: the first answer copied, the others merged in one after the other, each with a layout of its own, is a chain from an empty frame through all answers |
| FrameMerge.AnyOrder | grafana/plugins/grafana-lokiexplore-app/747.js:51 | (response combiner) whatever order answers with the same distinct fields come in, whichever of them is copied first, and in whatever order each lists its fields, every field of the merged frame has the same column |
| FrameMerge.OrderFree | grafana/plugins/grafana-lokiexplore-app/747.js:51 | (response combiner) the same for columns already in order: chains through the same sources end in the same columns |
| FrameMerge.FirstIsCopy | grafana/plugins/grafana-lokiexplore-app/747.js:51 | (j) the copy made of the first answer is what merging it into a frame without rows gives |
| Slab.Heap.Add | grafana/plugins/grafana-lokiexplore-app/854.js:1 | (b) the handle given out is no live one and not reserved, everything live is kept, and the array grows only when nothing is free |
| Slab.Heap.Take | grafana/plugins/grafana-lokiexplore-app/854.js:1 | (u) the object is returned and its slot becomes the first free one; reserved slots never change |
| Slab.Heap.Get | grafana/plugins/grafana-lokiexplore-app/944.js:1 | (b) a handle stands for its object until it is taken |
| Slab.Heap.LiveAndFree | grafana/plugins/grafana-lokiexplore-app/944.js:1 | (a, s) live and free slots are all slots from 132 up, so the array is as long as 132 plus the most objects ever alive at once |
| Slab.Heap.constructor | grafana/plugins/grafana-lokiexplore-app/944.js:1 | (a, s) 132 reserved slots, nothing live, nothing free |
| Slab.ChainWalk | grafana/plugins/grafana-lokiexplore-app/854.js:1 | (a, g) walking the free list visits each free slot once and ends at the array's length: it has no cycle |
| Slab.ChainUnique | grafana/plugins/grafana-lokiexplore-app/854.js:1 | (a, g) the array and the head determine the free list |
| Balance.BalanceTree | grafana/plugins/grafana-lokiexplore-app/module.js:1 | (p.balance) the nodes a reader sees, in order and with absolute positions, are unchanged; short nodes are returned as they are; for any others every child is either one of the pieces left when siblings above three sixteenths of the whole size are taken apart, or a group of several that together stay below that, all in order; a long plain one gets at most ten children, as do the groups made, every child but the last the greatest share below three sixteenths of the siblings and none more, and so on inside the groups, so with d levels of groups there are at least 5^d siblings; if the groups there were begin and end with their children, so do all groups after |
| Balance.BalanceRange | grafana/plugins/grafana-lokiexplore-app/module.js:1 | (E) the same for a range of siblings, for any nesting of groups; it ends since every group made is strictly smaller in size |
| Balance.Divide | grafana/plugins/grafana-lokiexplore-app/module.js:1 | (E) siblings are kept alone, grouped or taken apart without moving any node, and together they begin and end where they did; the pieces are those not above the maximum, and a group is a run of them below it; plain ones come in groups of one width; a new group begins with its first child and ends with its last |
| Balance.Group | grafana/plugins/grafana-lokiexplore-app/module.js:1 | (E) a group is the longest run whose size stays below the maximum |
| Balance.Largest | grafana/plugins/grafana-lokiexplore-app/module.js:1 | (E) the largest size of a group: the least number of which sixteen are three wholes |
| Balance.PortionsShare | grafana/plugins/grafana-lokiexplore-app/module.js:1 | (E) portions of one width are shares below three sixteenths of the whole, all but the last the greatest there are |
| Balance.DepthBound | grafana/plugins/grafana-lokiexplore-app/module.js:1 | (E) evenly shared groups in groups are at most as deep as the logarithm to the base 5 of what they hold |
| Balance.PiecesWhole | grafana/plugins/grafana-lokiexplore-app/module.js:1 | (E) siblings not above the maximum are pieces as they are |
| Balance.PiecesApart | grafana/plugins/grafana-lokiexplore-app/module.js:1 | (E) one above it adds the pieces of its children |
| Balance.NodeSize | grafana/plugins/grafana-lokiexplore-app/module.js:1 | (_) the size counts groups within groups, and stops at one |
| Balance.AtMostTen | grafana/plugins/grafana-lokiexplore-app/module.js:1 | (E) with three sixteenths as the largest group, ten groups are enough |
| TaskBuffer.Buffer.Add | grafana/plugins/grafana-pyroscope-app/module.js:3 | (add) a task is refused exactly if waiting and running tasks fill the buffer; else it gets the next promise, starts at once if a slot is free and waits its turn if not |
| TaskBuffer.Buffer.Done | grafana/plugins/grafana-pyroscope-app/module.js:3 | (s and the handlers) the task under a promise is done: its slot goes to the one waiting longest, and that promise, not settled before, is settled with the outcome; no other promise is |
| TaskBuffer.Buffer.StartNext | grafana/plugins/grafana-pyroscope-app/module.js:3 | (s) at most one task starts, the first in line |
| TaskBuffer.Buffer.Drain | grafana/plugins/grafana-pyroscope-app/module.js:3 | (s) if running tasks get done, in any order, every task taken is started, in order and once, and its promise settled with what that very task came to |
| TaskBuffer.Buffer.constructor | grafana/plugins/grafana-pyroscope-app/module.js:3 | (promiseBuffer) an empty buffer with its two limits |

## Left out

- Streaming and worker wrappers of the codec, preset dictionaries, and the header fields of the zlib and gzip wrappers: calls are one-shot with the final flag set and without an output buffer of the caller's.
- Positions and counters of the codec are unbounded integers: inputs of 2 GiB and more, where bit positions leave 32 bits, are not modelled.  The wrap-around of 16-bit code cells and the 31-bit range of the Huffman debt and of the Adler sums are.
- The hash width of the matcher is a parameter; how it is derived from the input length by a logarithm is not modelled.
- Inflate.Inflate: on streams that are not the encoding of valid blocks every block and symbol that is refused has its error stated, but not which bytes come out of those let through; neither the complement of a stored length nor the checksums are checked there, as in the source.
- Huffman.BuildLengths: when the tree is deeper than the limit, the cut lengths fit but are not claimed to be the best within the limit, which the three loops do not aim for.
- The sort of the standard library, used on the leaves of a code, is modelled as a stable insertion of each element.
- The space for the headers around the raw stream is not part of the space bound.
- The sorting of the permutations by `permute` and the search that uses it are not modelled.
- ShardRunner.Run: one response per sub-query and no callback after unsubscribing are assumed of the stream library; cancellation by the subscriber, the fallback without shards and the rewriting of the query text are not modelled.
- The products with 1.1, 0.9 and 0.7 are exact tenths, except that a product that should be whole may come out on the wrong side.
- FrameMerge.AnyOrder: the answers must have the same distinct field names and one time field, sorted; with other fields the frame depends on which answer is copied, and FrameMerge.LongIff and FrameMerge.ColumnsPart say when columns part.
- FrameMerge.Frame.Merge: for metric frames with one time field and number fields over the reals; ids and nanoseconds of log frames, text and label columns, missing values, and the matching of frames by name and type are not modelled.
- Sandwich.MergeItems: items are values with what lies next to them, and merged nodes are known by their place in a list, so sharing of node objects is not captured; the copying of callers before the merge is not modelled.
- FlameGraph.Redraw: nodes are known by their place in a table or row instead of by reference; labels, self values and the grouping of chains for collapsing are not carried through.
- Props, context hashes and the size cache are left out; node types are numbers with a flag.
- An object and a link are told apart by a tag, where the slab stores both in the same array untagged; string passing to and from the module's memory is not modelled.
- A producer that throws or calls the buffer while being started is not modelled.
- The LogQL parse tables and their error recovery, all user interface, configuration and I/O code, the WebAssembly detectors and the Java wrappers.
