# YACI emulator state and frame painter, in Dafny

This project models the two self-contained pieces of YACI, a CHIP-8 emulator
written in Rust:

- `src/chip8.rs`, the emulator state. A `Chip8` record holds the current
  opcode, sixteen 8-bit registers `v`, the index register `i`, the program
  counter `pc`, a 16-entry return stack with its pointer `sp`, 4096 bytes of
  RAM, 2048 (32 × 64) cells of video memory, a redraw flag, 16 key cells and
  the delay and sound timers. Its operations are a constructor, a placeholder
  `clock` that lights every third video cell and raises the redraw flag, the
  redraw handshake (`is_awaiting_redraw` / `fulfill_redraw`) and the reader
  `dump_vram`. It is modelled as the class `Chip8.Chip8` over arrays, with a
  value snapshot `Chip8.Machine` of every field; each mutating method states
  its new snapshot as a function of the old one (`ClockStep`, `FulfillStep`),
  and lemmas state what those functions do.
- `draw` in `src/main.rs`, which paints an RGBA frame buffer in place from a
  grid of cells: chunk k of 4 bytes takes the colour of cell
  `vmem[k / 64][k % 64]`, opaque white `FF FF FF FF` when the cell holds 1 and
  opaque black `00 00 00 FF` for any other value. Bytes after the last whole
  chunk are left alone. It is modelled as the method `Frame.Draw` over an
  `array<u8>`, proved against the function `Frame.Rendered`; its indexing
  requirement is the precondition `Frame.Covers`.

Rust's `u8` and `u16` are the subset types `Primitives.u8` and
`Primitives.u16`. No operation here does arithmetic that could wrap, so only
the value ranges are modelled.

The code, not a fuller description of CHIP-8, decides what is modelled: the
emulator in this repository has no instruction decoder, no timer ticks, no key
handling and no ROM loading. The stack is a fixed vector of 16 zeros plus a
separate pointer `sp`, not a growable list. The key cells are `u8`, not
booleans. `dump_vram` returns the flat 2048-cell slice; the two-dimensional
grid `draw` reads comes from `dump_vmem`, which is not defined in
`src/chip8.rs`. So the model treats `draw`'s grid as an arbitrary
`seq<seq<u8>>`. `Frame.FullGridCovers` shows that a grid of 32 rows of 64
cells meets `draw`'s precondition for the 64 × 32 frame `main` creates.

## Model

| member | source | states |
|---|---|---|
| Chip8.Chip8.constructor | src/chip8.rs:18-33 | the new state is `Initial()`: opcode 0, 16 zero registers, i 0, pc 0x200, 16 zero stack entries, sp 0, 4096 zero RAM bytes, 2048 zero video cells, redraw false, 16 zero keys, both timers 0; all buffers are fresh |
| Chip8.InitialIsZeroed | src/chip8.rs:19-32 | the initial state has every buffer at its declared size, pc = 0x200, opcode, i and sp 0, every register, RAM byte, video cell and key 0, both timers 0 and no redraw pending |
| Chip8.ClockedVram | src/chip8.rs:36-40 | clocking keeps the length of video memory, sets every cell with index divisible by 3 to 1 and leaves every other cell as it was |
| Chip8.Chip8.Clock | src/chip8.rs:35-42 | the loop sets exactly the cells with index divisible by 3 to 1 and keeps the rest, raises redraw, and the new state is `ClockStep` of the old one, so no other field changes |
| Chip8.ClockStepEffect | src/chip8.rs:35-42 | after a clock, redraw is true, each video cell is 1 at indices divisible by 3 and unchanged elsewhere, and every other field equals its old value |
| Chip8.ClockStepIdempotent | src/chip8.rs:35-42 | clocking twice gives the same state as clocking once |
| Chip8.StepsPreserveWellFormed | src/chip8.rs:35-42 | neither a clock nor a redraw acknowledgement changes the size of any buffer |
| Chip8.RedrawHandshake | src/chip8.rs:41-54 | after a clock a redraw is pending; acknowledging it clears the flag and keeps the painted video memory and every other field |
| Chip8.Chip8.DumpVram | src/chip8.rs:44-46 | returns exactly the current 2048 video cells and changes nothing |
| Chip8.Chip8.IsAwaitingRedraw | src/chip8.rs:48-50 | returns the current redraw flag and changes nothing |
| Chip8.Chip8.FulfillRedraw | src/chip8.rs:52-54 | clears the redraw flag; the new state equals the old one except for that flag |
| Frame.CoversIff | src/main.rs:91-95 | the chunk-by-chunk form of `draw`'s indexing requirement holds exactly when every chunk k below the count has row k / 64 in the grid and column k % 64 in that row |
| Frame.CoversAt | src/main.rs:91-95 | under the indexing requirement, the lookup of any chunk below the count is in bounds |
| Frame.Pixels | src/main.rs:91-101 | painting n chunks produces exactly 4·n bytes |
| Frame.Rendered | src/main.rs:91-101 | the rendered frame has the frame's length and keeps the trailing `len % 4` bytes that do not form a whole chunk |
| Frame.PixelsAt | src/main.rs:92-101 | byte j of painted chunk k is byte j of the colour chosen for cell `vmem[k / 64][k % 64]` |
| Frame.DrawChunk | src/main.rs:92-101 | each whole chunk k of the rendered frame is white when its cell is 1 and black otherwise |
| Frame.DrawLit | src/main.rs:95-96 | a chunk whose cell holds 1 becomes `FF FF FF FF` |
| Frame.DrawUnlit | src/main.rs:95-99 | a chunk whose cell holds any value other than 1 becomes `00 00 00 FF` |
| Frame.DrawOpaque | src/main.rs:95-99 | the fourth (alpha) byte of every written chunk is 0xFF |
| Frame.DrawIgnoresPrior | src/main.rs:95-101 | the written chunks of two frames of equal length rendered from the same grid agree, whatever the frames held before |
| Frame.FullGridCovers | src/main.rs:41-45 | a grid of 32 rows of 64 cells meets the indexing requirement for all 2048 chunks of the 64 × 32 frame |
| Frame.Draw | src/main.rs:90-102 | panics are excluded by the precondition that every chunk's cell exists; the frame after the loop equals `Rendered` of the frame before |
| Frame.PaintChunk | src/main.rs:92-101 | one loop step: the four bytes of chunk k receive the colour of its cell (the `copy_from_slice`) and no other byte changes |

## Left out

- `main` in `src/main.rs`: the window, event loop, pixel surface, key mapping, rendering, frame pacing and command-line arguments are I/O over external crates.
- `load_rom`, `set_key`, `clock_timer`, `dump_vmem`, `get_redraw_section` and `dump_vmem_line`: `main` calls them, but `src/chip8.rs` does not define them, so there is no behaviour to model.
- `draw_2` and the commented-out block inside `draw`: dead code built on the missing `get_redraw_section` and `dump_vmem_line`.
- `src/screen.rs`: a wrapper around graphics-library images and textures with floating-point camera placement.
- Instruction decoding, timer countdown and key waiting: the emulator has no such code yet. The stack, `sp`, RAM, keys and timers are only initialised, so the model gives them their initial values and no behaviour.
- Frame.Draw: `draw`'s panic on a missing cell is not modelled as an outcome. It is excluded by the precondition `Covers`, which `CoversIff` shows is exactly the in-bounds condition for every chunk.
