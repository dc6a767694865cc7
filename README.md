# cemu core, modelled in Dafny

cemu is a toy virtual machine written in C++. Its core has three parts, and
this project models each of them.

- **The byte-stream codec** (`binaryc_t` / `binaryp_t` in `src/binary.cpp`).
  It is a fixed buffer of 6144 bytes with:
  - a cursor (`position`);
  - a counter of appended bytes (`length`);
  - a write flag.

  It offers append, read, reset and snapshot, typed little-endian reads and
  writes of 1, 2, 4 and 8 bytes, and length-prefixed strings.
- **The program builder** (`src/ilbuilder.cpp`). It creates an empty program
  and appends instructions. Each instruction has an opcode, an operand count,
  operand widths and operand bytes.
- **The CPU** (`cpu_t` in `src/main.cpp`). It has 64 KiB of byte memory and 14
  registers.
  - Memory holds a 1 KiB big-endian word stack at the bottom.
  - Above the stack, memory is cut into slabs. Each slab has a
    `0x0F 0xFF state` header.
  - A first-fit slab allocator (`asm_malloc`, `asm_mfree`, `asm_maddrof`)
    manages the slabs.
  - `initialize` serialises the program into a stream and copies the stream
    into the first slab.
  - `execute` replays those bytes instruction by instruction through
    `execute_inst`:
    - PUSH and POP;
    - ADD, SUB, MUL, DIV, OR and XOR on registers;
    - JMP within the program;
    - every other opcode is ignored.

The model has two layers:

- **Specification modules** (`Bytes`, `Binary`, `Opcodes`, `Bytecode`,
  `Memory`, `Engine`) give each operation's meaning as functions over values.
  - `StreamState` is the stream.
  - `CpuState` is memory, registers and `cpu_info_t`.
  - `Machine` is the CPU together with the replay stream.
- **Classes** follow the source's state and update it in place:
  - `Binary.BinaryStream` has an `array<bv8>` buffer;
  - `IlBuilder.Program`;
  - `CpuEngine.Cpu` has `array` memory and registers.

  Each method of these classes is proved to leave exactly the state its
  specification function computes. The properties are then proved about those
  functions:
  - round trips;
  - frames;
  - allocator behaviour;
  - stack LIFO order;
  - the layout after `initialize`;
  - the exact effect of each handler.

`Demo` follows `main` end to end:
- it builds the three-instruction program with the builder;
- it proves its 27-byte encoding;
- it proves that `initialize` followed by `execute` halts after five cycles
  with 25 in R5.

### Modelling choices

- **Host assumptions.** The host is little-endian, `int` is 4 bytes, `long` and
  `size_t` are 8 bytes, and registers are 32-bit unsigned.
  - Register arithmetic wraps modulo 2^32, and DIV divides unsigned.
  - Stack words are stored high byte first (`asm_stack_push`,
    `asm_stack_pop`).
- **Outcomes, not preconditions.** Conditions that make C++ behaviour undefined
  in `execute_inst` are modelled as an outcome (`Broken`, run status
  `UndefinedBehavior`), not excluded by a precondition. There are three:
  - using the indeterminate result of a typed read that failed its bounds
    check;
  - a register index outside 0..13;
  - DIV by a register holding 0.
- **Exceptions.** The exception `validate` throws when SP > 1024 is the outcome
  `Thrown`, which ends a run with status `StackFault`.
- **Fuel.** `execute` loops until PC reaches min(PX, upper bound). The model
  bounds the loop with a fuel parameter. Running out of fuel is its own status,
  and `Engine.RunMoreFuel` shows that more fuel never changes a finished run.
- **Five cycles, not three.** One might expect three cycles for the demo, one
  per instruction. The code takes five:
  - INT has no handler, so its operand is not consumed;
  - cycle 4 decodes that operand's bytes as an instruction header;
  - cycle 5 finds PC past PX and returns.

  The model follows the code.

## Model

| member | source | states |
|---|---|---|
| Bytes.LittleEndianRoundTrip | src/binary.cpp:52-137 | decoding the n little-endian host bytes of any v < 256^n gives v back |
| Bytes.FromLittleEndianRoundTrip | src/binary.cpp:91-137 | re-encoding a decoded byte string at its own width gives the same bytes |
| Bytes.ToUnsigned | src/binary.cpp:52-66 | the bit pattern of an n-byte signed value fits n bytes and has its top bit set exactly when the value is negative |
| Bytes.ToSigned | src/binary.cpp:91-113 | reading an n-byte pattern as signed gives a value in the signed range, negative exactly when the top bit is set |
| Bytes.SignedRoundTrip | src/binary.cpp:52-113 | signed-to-pattern and pattern-to-signed are inverse both ways |
| Bytes.BigEndianRoundTrip | src/main.cpp:160-184 | the stack's big-endian word encoding and decoding are inverse both ways |
| Bytes.Overwrite | src/binary.cpp:18 | a memcpy into a buffer: bytes inside the window come from the data, every other byte is kept, the length is kept |
| Bytes.OverwriteAdjacent | src/binary.cpp:18-19 | two memcpys at adjacent offsets equal one memcpy of the concatenation |
| Binary.StreamAppend | src/binary.cpp:7-23 | a read-only stream or a move past the capacity returns 0 and changes nothing; otherwise the data lands at the cursor, cursor and counter advance by its length, and the bytes before and after are kept |
| Binary.StreamRead | src/binary.cpp:25-41 | only the capacity is checked; past it, 0 and no bytes; otherwise the bytes at the cursor, the cursor advanced; counter, buffer and flag never change |
| Binary.StreamReadValue | src/binary.cpp:91-137 | a typed read fails exactly when it would pass the capacity, then leaves the cursor; otherwise it advances it by the width and the value lies in the unsigned or signed range of that width |
| Binary.StreamWriteString | src/binary.cpp:84-89 | write_string returns the string's length whatever happens; a read-only stream is unchanged; when prefix and bytes fit, cursor and counter advance by 8 plus the length |
| Binary.StreamReadString | src/binary.cpp:139-142 | the bytes read back never exceed the caller's buffer |
| Binary.AppendReadRoundTrip | src/binary.cpp:7-41 | reading back from where an append started returns exactly the appended bytes and ends where the append ended |
| Binary.WriteReadUnsigned | src/binary.cpp:68-137 | every write_uintN followed by read_uintN from the same position returns the written value |
| Binary.WriteReadSigned | src/binary.cpp:52-113 | every write_intN followed by read_intN from the same position returns the written value |
| Binary.WriteReadString | src/binary.cpp:84-142 | write_string followed by read_string from the same position returns the string and its length and ends after it |
| Binary.BinaryStream.constructor | src/binary.cpp:144-155 | a new stream has cursor 0, counter 0, a zeroed buffer and the given write flag |
| Binary.BinaryStream.Append | src/binary.cpp:7-23 | the in-place append leaves exactly the StreamAppend state and result |
| Binary.BinaryStream.Read | src/binary.cpp:25-41 | the in-place read returns exactly what StreamRead returns and moves the cursor as it does |
| Binary.BinaryStream.Reset | src/binary.cpp:43 | reset moves the cursor to 0 and changes nothing else |
| Binary.BinaryStream.Get | src/binary.cpp:46-50 | the snapshot is the first `length` bytes of the buffer |
| Binary.BinaryStream.WriteValue | src/binary.cpp:52-82 | a typed write is an append of the value's little-endian bytes |
| Binary.BinaryStream.WriteInt8 | src/binary.cpp:52-54 | appends the 1-byte pattern of the value |
| Binary.BinaryStream.WriteInt16 | src/binary.cpp:56-58 | appends the 2-byte pattern of the value |
| Binary.BinaryStream.WriteInt32 | src/binary.cpp:60-62 | appends the 4-byte pattern of the value |
| Binary.BinaryStream.WriteInt64 | src/binary.cpp:64-66 | appends the 8-byte pattern of the value |
| Binary.BinaryStream.WriteUint8 | src/binary.cpp:68-70 | appends the value's byte |
| Binary.BinaryStream.WriteUint16 | src/binary.cpp:72-74 | appends the value's 2 little-endian bytes |
| Binary.BinaryStream.WriteUint32 | src/binary.cpp:76-78 | appends the value's 4 little-endian bytes |
| Binary.BinaryStream.WriteUint64 | src/binary.cpp:80-82 | appends the value's 8 little-endian bytes |
| Binary.BinaryStream.WriteString | src/binary.cpp:84-89 | appends an 8-byte length prefix and then the bytes, as StreamWriteString |
| Binary.BinaryStream.ReadValue | src/binary.cpp:91-137 | a typed read returns what StreamReadValue returns, with no value when the read was refused |
| Binary.BinaryStream.ReadInt8 | src/binary.cpp:91-95 | reads one byte as a signed value |
| Binary.BinaryStream.ReadInt16 | src/binary.cpp:97-101 | reads two bytes as a signed value |
| Binary.BinaryStream.ReadInt32 | src/binary.cpp:103-107 | reads four bytes as a signed value |
| Binary.BinaryStream.ReadInt64 | src/binary.cpp:109-113 | reads eight bytes as a signed value |
| Binary.BinaryStream.ReadUint8 | src/binary.cpp:115-119 | reads one byte as an unsigned value |
| Binary.BinaryStream.ReadUint16 | src/binary.cpp:121-125 | reads two bytes as an unsigned value |
| Binary.BinaryStream.ReadUint32 | src/binary.cpp:127-131 | reads four bytes as an unsigned value |
| Binary.BinaryStream.ReadUint64 | src/binary.cpp:133-137 | reads eight bytes as an unsigned value |
| Binary.BinaryStream.ReadString | src/binary.cpp:139-142 | reads the length prefix and then that many bytes, as StreamReadString |
| Opcodes.Decode | src/opcodes.h:6-21 | a byte decodes to the opcode with that code, and to nothing when no opcode has it |
| Opcodes.DecodeCode | src/opcodes.h:6-21 | every opcode's code decodes back to it |
| IlBuilder.Program.constructor | src/ilbuilder.cpp:3-10 | a new program has length 0 and no instructions |
| IlBuilder.Program.AddInstruction | src/ilbuilder.cpp:12-29 | the length grows by one and the new instruction, numbered with the old length, is appended last with the given fields |
| Bytecode.OperandBytes | src/main.cpp:234-238 | operand j contributes exactly sizes[j] bytes |
| Bytecode.InstructionChunks | src/main.cpp:231-239 | an instruction is written as opcode, count and one chunk per operand |
| Bytecode.InstructionChunksSize | src/main.cpp:231-239 | an instruction's encoding is 1 + 4 + the sum of its operand widths bytes |
| Bytecode.ProgramChunksSize | src/main.cpp:230-240 | the program's encoding is the sum of its instructions' sizes |
| Bytecode.AppendAllCounter | src/main.cpp:230-243 | appending only from a fresh writable stream keeps cursor equal to counter, within the capacity |
| Bytecode.AppendAllFits | src/main.cpp:230-240 | when the chunks fit, appending them all writes their concatenation at the cursor and advances by its length |
| Bytecode.SerializedFits | src/main.cpp:224-243 | a program that fits serialises to exactly its encoding, followed by zeros, with cursor and counter at its size |
| Bytecode.SerializedCounter | src/main.cpp:242-243 | the stream's counter, which initialize uses as the byte count, equals its cursor and fits the capacity |
| Bytecode.UniformOperandsVerbatim | src/main.cpp:234-238 | when all operands have the same width w, the operands are copied verbatim as the first n*w operand bytes |
| Bytecode.OperandChunksAt | src/main.cpp:234-238 | the j-th operand chunk is operand j's bytes |
| Bytecode.SerializeHeader | src/main.cpp:232-233 | the write_uint8 of the opcode and the write_int32 of the count are the first two chunks |
| Bytecode.SerializeOperand | src/main.cpp:234-238 | each operand write is the next chunk |
| Memory.InitialImage | src/main.cpp:188-211 | after initialize_memory, every byte is the initial layout's byte |
| Memory.InitialLayout | src/main.cpp:188-208 | the stack area is zero and every stripe starts with a free header 0x0F 0xFF 0x01 |
| Memory.StripeLayout | src/main.cpp:200-207 | inside a stripe only the first three bytes are non-zero, and the next stripe starts a stride later |
| Memory.StripeFits | src/main.cpp:200-207 | every stripe's header lies inside memory |
| Memory.FirstFreeFrom | src/main.cpp:44-58 | the scan finds the lowest index from which a free header sits with room for the size, or reports there is none |
| Memory.Allocate | src/main.cpp:74-84 | malloc returns NULL exactly when no free header has room, and then changes nothing; otherwise it returns the data of the first fitting slab and claims its header |
| Memory.AllocateTakesSlab | src/main.cpp:60-84 | once allocated, a slab is no longer free, so no later malloc returns it |
| Memory.AllocateFrame | src/main.cpp:74-84 | malloc changes only the three header bytes and stores the size, high byte first, in its first two |
| Memory.AddressOf | src/main.cpp:108-116 | maddrof gives 0 for NULL and the offset otherwise, clamped at 0 |
| Memory.FreeAsWritten | src/main.cpp:86-106 | mfree as written changes nothing for NULL or an out-of-range pointer; otherwise it sets the header to 0x0F 0xFF 0x02 and keeps every other byte |
| Memory.FreeAsWrittenLeaks | src/main.cpp:86-106 | after malloc then mfree as written, the slab is still taken and no malloc returns it |
| Memory.Release | src/main.cpp:86-106 | the intended mfree restores a free header 0x0F 0xFF 0x01 |
| Memory.ReleaseUndoesAllocate | src/main.cpp:86-106 | release after malloc gives back the exact memory, and the same request is then served from the same slab |
| Memory.InitialFirstFit | src/main.cpp:242-245 | on freshly initialised memory, malloc of a size that fits returns the first slab's data just above the stack |
| Memory.PushWord | src/main.cpp:160-171 | a push below the stack limit stores the word big-endian at SP and adds 4; a full stack is unchanged; no other byte changes |
| Memory.PopWord | src/main.cpp:173-184 | a pop with SP < 4 gives 0 and keeps SP; otherwise SP drops by 4 and the value is the big-endian word below it |
| Memory.StackPointerAligned | src/main.cpp:160-184 | push and pop keep SP a multiple of 4 within the stack |
| Memory.PushAllFrame | src/main.cpp:160-171 | pushing n words raises SP by 4n and leaves memory below the old SP alone |
| Memory.PushAllKeepsWord | src/main.cpp:160-171 | words already on the stack survive later pushes |
| Memory.StackLifo | src/main.cpp:160-184 | popping n words after pushing n returns them in reverse order and restores SP |
| Engine.ReadUint8 | src/binary.cpp:115-119 | the opcode read fails exactly at the end of the stream; otherwise it gives a byte and advances by 1 |
| Engine.ReadInt32 | src/binary.cpp:103-107 | an operand read fails exactly when 4 bytes do not remain; otherwise it gives an `int` and advances by 4 |
| Engine.ReadsInt | src/binary.cpp:103-107 | reading 4 bytes that encode v gives v and advances by 4 |
| Engine.PushStep | src/main.cpp:301-307 | PUSH never throws, consumes one operand, and changes only SP and the four bytes at SP |
| Engine.PopStep | src/main.cpp:309-316 | POP never throws, consumes one operand, keeps memory, and changes only registers |
| Engine.ArithmeticStep | src/main.cpp:318-382 | an arithmetic handler never throws, consumes two operands, keeps memory, and changes at most one register |
| Engine.ArithmeticOnRegisters | src/main.cpp:318-382 | with operands naming registers l and r, register l becomes l (op) r in 32-bit unsigned arithmetic and nothing else changes |
| Engine.DivideByZero | src/main.cpp:351-360 | DIV by a register holding 0 is undefined and leaves the CPU unchanged |
| Engine.SubUndoesAdd | src/main.cpp:318-338 | SUB undoes ADD and ADD undoes SUB on wrapping 32-bit registers |
| Engine.JumpStep | src/main.cpp:384-392 | JMP never changes the CPU and leaves the cursor after the operand or inside the program |
| Engine.JumpInside | src/main.cpp:384-392 | JMP to a target between 0 and upper - lower moves the replay cursor to the target |
| Engine.JumpOutside | src/main.cpp:384-392 | JMP to a target outside 0..upper - lower ignores it: the cursor just moves past the operand and the CPU is unchanged |
| Engine.Dispatch | src/main.cpp:300-397 | the switch never throws and changes only memory and registers |
| Engine.DispatchUnhandled | src/main.cpp:300-397 | an opcode with no handler, or a count its handler does not accept, changes nothing and reads no operand |
| Engine.Fetch | src/main.cpp:289-293 | fetching counts the cycle, sets PC to lower bound + cursor, and reads the opcode byte and the count |
| Engine.FetchReadsHeader | src/main.cpp:292-293 | with five bytes left, the fetched opcode is the byte at the cursor |
| Engine.Cycle | src/main.cpp:286-399 | execute_inst throws exactly when SP > 1024; otherwise it counts one cycle and keeps the program bounds |
| Engine.UnhandledOpcodeSkipsHeader | src/main.cpp:292-397 | an unknown, AND, CMP, JE, JNE or INT opcode only counts the cycle, sets PC and moves past the 5-byte header |
| Engine.Run | src/main.cpp:401-430 | execute halts only with PC at min(PX, upper bound), faults only with SP > 1024, and keeps the program bounds |
| Engine.RunStops | src/main.cpp:420-427 | the converse directions: a machine whose PC has reached min(PX, upper bound) halts at once, whatever the fuel, and one with SP > 1024 faults with its state unchanged and no cycle counted |
| Engine.RunMoreFuel | src/main.cpp:420-427 | giving a finished run more fuel changes neither its result nor its final state |
| Engine.ResumeMoreFuel | src/main.cpp:420-427 | the same for a run resumed after one step |
| Engine.Boot | src/main.cpp:402-413 | execute's stream holds the PX - PC bytes from memory[PC] followed by zeros (only zeros when that count exceeds the capacity), read-only, cursor 0 |
| Engine.ZeroRegisters | src/main.cpp:213-221 | initialize_registers zeroes all 14 registers |
| Engine.LoadedState | src/main.cpp:223-252 | initialize_bytecode claims the first slab, copies the serialised bytes just above the stack, and sets PC, PX and both bounds around them |
| Engine.InitializedState | src/main.cpp:255-263 | initialize gives exactly that state, from zeroed registers and the initial memory layout, with the cycle counter at 0 |
| Engine.InitializedRegisters | src/main.cpp:245-248 | after initialize, PC is the lower bound (1027), PX is the upper bound, and every other register is 0 |
| Engine.InitializedMemory | src/main.cpp:188-248 | after initialize, the program's encoding sits at 1027, the first slab is taken, and the stack is zero |
| Engine.InitializedReplay | src/main.cpp:401-413 | after initialize, execute can start, and the bytes it replays are the program's encoding |
| CpuEngine.Cpu.constructor | src/main.cpp:37-41 | a new CPU has memory and registers sized, and no program |
| CpuEngine.Cpu.CheckIfFreeMemory | src/main.cpp:44-58 | returns idx = i + 3 for the lowest free header i with room, or false with idx 0 when there is none |
| CpuEngine.Cpu.ChangeFreeMemoryBit | src/main.cpp:60-64 | succeeds exactly when idx < 65536 and then marks byte idx - 1 taken, whatever bit is passed |
| CpuEngine.Cpu.Malloc | src/main.cpp:74-84 | the in-place malloc returns the pointer and leaves the memory Allocate gives |
| CpuEngine.Cpu.MFree | src/main.cpp:86-106 | the in-place mfree leaves the memory FreeAsWritten gives |
| CpuEngine.Cpu.MAddrOf | src/main.cpp:108-116 | the in-place maddrof gives the address Memory.AddressOf specifies |
| CpuEngine.Cpu.StackPush | src/main.cpp:160-171 | the in-place push leaves the memory and SP PushWord gives and no other register changes |
| CpuEngine.Cpu.StackPop | src/main.cpp:173-184 | the in-place pop returns the word and SP PopWord gives and no other register changes |
| CpuEngine.Cpu.InitializeMemory | src/main.cpp:188-211 | the loop leaves memory equal to the initial layout |
| CpuEngine.Cpu.InitializeRegisters | src/main.cpp:213-221 | the loop zeroes every register |
| CpuEngine.Cpu.SerializeProgram | src/main.cpp:224-240 | the nested write loops leave the stream equal to the program's serialisation |
| CpuEngine.Cpu.WriteInstruction | src/main.cpp:231-239 | one outer iteration appends exactly that instruction's chunks |
| CpuEngine.Cpu.WriteHeader | src/main.cpp:232-233 | the header writes append the opcode and count chunks |
| CpuEngine.Cpu.WriteOperands | src/main.cpp:234-239 | the operand loop appends one chunk per operand |
| CpuEngine.Cpu.MemCopy | src/main.cpp:243 | the copy overwrites memory at the offset with the data and keeps every other byte |
| CpuEngine.Cpu.PlaceBytes | src/main.cpp:242-243 | malloc of the byte count returns 1027 on fresh memory, and the bytes are copied there |
| CpuEngine.Cpu.LoadBytes | src/main.cpp:242-248 | after the copy, PC and the lower bound are 1027, and PX and the upper bound are 1027 plus the byte count |
| CpuEngine.Cpu.InitializeBytecode | src/main.cpp:223-252 | the in-place load leaves the state LoadBytecode gives |
| CpuEngine.Cpu.Initialize | src/main.cpp:255-263 | initialize leaves the state Initialized gives for the program |
| CpuEngine.Cpu.Validate | src/main.cpp:272-275 | validate throws exactly when SP > 1024 |
| CpuEngine.Cpu.ExecutePush | src/main.cpp:301-307 | the in-place PUSH gives the result and state PushStep gives |
| CpuEngine.Cpu.ExecutePop | src/main.cpp:309-316 | the in-place POP gives the result and state PopStep gives |
| CpuEngine.Cpu.ExecuteArithmetic | src/main.cpp:318-382 | the in-place arithmetic gives the result and state ArithmeticStep gives |
| CpuEngine.Cpu.ExecuteJump | src/main.cpp:384-392 | the in-place JMP gives the result and state JumpStep gives |
| CpuEngine.Cpu.FetchInst | src/main.cpp:289-293 | the in-place fetch gives the state, opcode and count Fetch gives |
| CpuEngine.Cpu.Dispatch | src/main.cpp:300-397 | the in-place switch gives the result and state Dispatch gives |
| CpuEngine.Cpu.ExecuteInst | src/main.cpp:286-399 | the in-place execute_inst gives the result and state Cycle gives |
| CpuEngine.Cpu.OpenReplay | src/main.cpp:402-413 | the stream execute opens is the one Boot gives |
| CpuEngine.Cpu.Execute | src/main.cpp:401-430 | the in-place execute ends with the status and CPU state Run gives from the booted machine |
| Demo.DemoEncoding | src/main.cpp:436-459 | the demo program (PUSH 25, POP R5, INT 0x21) encodes to 27 given bytes |
| Engine.PushOperand | src/main.cpp:301-307 | PUSH of any int operand onto a stack with room stores its 32-bit pattern big-endian at SP, raises SP by 4 and consumes the operand; nothing else changes |
| Engine.PopIntoRegister | src/main.cpp:309-316 | POP into register r with word w on top lowers SP by 4, puts w in r and consumes the operand; memory is unchanged |
| Demo.PushSmall | src/main.cpp:301-307 | PUSH of an operand below 256, as the demo's is: its word is the operand itself, stored at SP |
| Demo.PopSmall | src/main.cpp:309-316 | POP with the one-byte register operand the demo uses: SP drops by 4 and the top word goes into the register |
| Demo.DemoBoot | src/main.cpp:461-463 | after initialize on the demo program, execute starts with the 27 bytes at cursor 0, PC at 1027, SP, R5 and the cycle count at 0 |
| Demo.PushCycle | src/main.cpp:301-307 | cycle 1 pushes 25 onto the empty stack |
| Demo.PopCycle | src/main.cpp:309-316 | cycle 2 pops 25 into R5 |
| Demo.SkipCycle | src/main.cpp:394-397 | cycles 3 and 4 (INT and its operand read as a header) change only PC, the cycle count and the cursor |
| Demo.LastCycle | src/main.cpp:295-297 | cycle 5 sets PC past PX, so execute stops |
| Demo.RunFromBoot | src/main.cpp:420-427 | from the booted state, execute halts after five cycles with 25 in R5 |
| Demo.DemoRun | src/main.cpp:461-463 | initialize then execute on the demo program halts with R5 = 25 after five cycles |
| Demo.BuildDemo | src/main.cpp:436-459 | the three add_instruction calls build exactly the demo program |
| Demo.RunDemo | src/main.cpp:433-463 | building, initializing and executing on a new CPU halts with 25 in R5 |

## Left out

- Logging (`LOG_MSG`) and `dump_memory` (main.cpp:118-155) are output only, so the model leaves them out.
- The whole INT path is not part of this model: `src/interrupt.cpp`, `src/operand.cpp` and `src/register.h`. `execute_inst` never calls them.
- `asm_misvalid`, `asm_mofaddr` and `get_operand` (main.cpp:66-72, 265-270) are never called, so they are not modelled.
- A host `malloc` that fails (NULL for the stream, the program or the CPU) is not modelled. Streams, programs and CPUs are always allocated.
- Neither is freeing host memory: the `free` in `execute` and the leaked buffer `get` returns.
- `execute` is bounded by a fuel parameter. A run that would loop forever (a JMP back) ends with status OutOfFuel instead.
- `create_binary_stream` never initialises `length`. The model starts it at 0, so nothing is claimed about a stream whose counter starts with leftover bytes.
- `(cpu_t*)malloc` leaves the CPU's arrays indeterminate. The constructor zeroes them. `initialize` overwrites all of memory and all registers before anything reads them.
- Widths of C++ integers: sizes, counts and cursor arithmetic are unbounded integers. The model does not capture `size_t` or `int` overflow beyond the 32-bit register wrap, the `int` operand range and the 8-byte string prefix.
- The operands buffer is modelled as the bytes `add_instruction` receives. An operand j is read from offset j * sizes[j], as `initialize_bytecode` reads it. Instructions whose operands lie outside that buffer are excluded by `Opcodes.Encodable`, because the C++ would read past it.
- Binary.StreamReadString: states only that the result fits the caller's buffer. A string longer than the buffer that still fits the stream is excluded by its requires, because `read_string` would then write past the buffer. The full content is stated by Binary.WriteReadString.
- Engine.PushStep: its contract states the frame. The exact stored word is stated by Engine.PushOperand.
- Engine.PopStep: its contract states the frame. The exact register update is stated by Engine.PopIntoRegister.
- Engine.JumpStep: its contract states the frame. The exact cursor is stated by Engine.JumpInside and Engine.JumpOutside.
- Engine.ArithmeticStep: its contract states the frame. The exact result is stated by Engine.ArithmeticOnRegisters and Engine.DivideByZero.
- Memory.Release: its contract states the restored header. Undoing the allocation is stated by Memory.ReleaseUndoesAllocate.
- CpuEngine.Cpu.MFree: requires a pointer inside memory to lie at least 3 bytes above memory's start. The C++ would otherwise write before the array.

## Findings

| source | as written | input that shows it | evidently intended | confidence | as-written member | corrected member |
|---|---|---|---|---|---|---|
| src/main.cpp:86-106 | `asm_mfree` restores 0x0F 0xFF. It then calls `asm_change_free_memory_bit(idx, 0x01)`, which ignores its bit and writes 0x02 (taken). | On freshly initialised memory, malloc(10) returns offset 1027. After mfree of it, the header is 0x0F 0xFF 0x02, so the next malloc(10) does not return 1027. | The state byte goes back to 0x01, so the slab is free again and the same request is served from it. | not executed | Memory.FreeAsWrittenLeaks | Memory.ReleaseUndoesAllocate |

`CpuEngine.Cpu.MFree` keeps the behaviour as written. No other part of the model frees memory.
