# STM32F103 startup code, modelled in Dafny

A model of the startup file of an STM32F103 (Cortex-M3) bare-metal project,
`blinky_led/Core/Startup/startup_stm32f103xx.c`, and proofs about it. The
file does two things:

- `Reset_Handler`, the first routine after reset, copies the initialised-data
  image from `_sidata` into `[_sdata, _edata)` and zeroes `[_sbss, _ebss)`.
  Both are word-by-word pointer loops. It then calls `SystemInit`,
  `__libc_init_array` and `main` in that order, and loops forever if `main`
  returns.
- The interrupt vector table holds 67 words: `&_estack`, `Reset_Handler`, the
  core exception handlers with their reserved zero words, the 43 peripheral
  interrupt handlers, seven zero words and `BootRAM`. Every handler except
  `Reset_Handler` is defined weakly with a body that calls `Default_Handler`,
  which loops forever. An application overrides a handler by defining one of
  the same name.

The project has two modules:

- `boot.dfy` (module `Boot`) models `Reset_Handler` as imperative code over an
  `array<bv32>` of memory words. Its two pointer loops are the methods
  `CopyDataLoop` and `ZeroBssLoop`, each with its loop invariants.
  `ResetHandler` runs them in the source's order and then records the three
  calls and the final hang. The methods are proved against the specification
  functions `CopyData`, `ZeroBss`, `InitMemory` and `BootTrace`. The linker
  symbols are the word indices of a `LinkLayout`.
- `vectors.dfy` (module `Vectors`) models the vector table as a constant
  sequence of entries, weak-symbol resolution as a function `Resolve`, and
  `Default_Handler` as the `DefaultLoop` outcome. The table's layout is checked
  against an independent numbering: the Cortex-M exception numbers of the
  ARMv7-M Architecture Reference Manual (sections B1.5.2 and B1.5.3) and the
  STM32F103 IRQ numbers of reference manual RM0008 (section 10.1.2, "Interrupt
  and exception vectors").

The table is written as a concatenation of short literal lists: the core
exceptions, seven consecutive runs of the peripheral interrupts named by their
IRQ ranges (`Irq0To5Vectors` … `Irq40To42Vectors`), and the trailing words. The order
and contents are exactly the source's single initialiser list.

Three facts about the code shape the model:

- The code copies and clears `uint32_t` words, so memory is an array of 32-bit
  words.
- Each weak handler is a separate function whose body calls `Default_Handler`.
  The file's own comment at line 97 calls them aliases. Resolution yields a
  `WeakStub`, and invoking one runs `Default_Handler`.
- The copy loop is bounded only by `_edata`, so the model covers every layout,
  including an image that overlaps the data region. If the image overlaps the
  region from below, the copy reads back words it has already written (`Wrap`,
  `CopyReadSource`, `OverlappingCopyRepeats`). Exact copy fidelity is proved
  whenever that cannot happen (`ForwardCopySafe`, implied by disjoint regions).

## Model

| member | source | states |
|---|---|---|
| `Boot.Wrap` | blinky_led/Core/Startup/startup_stm32f103xx.c:55-58 | when the image starts `d` words below the region, the word read for offset `off` lies in the first `d` image words, and it is `off` itself while `off < d` |
| `Boot.Phase` | blinky_led/Core/Startup/startup_stm32f103xx.c:51-58 | the image offset whose word lands at data offset `off` is at most `off`, and equals `off` whenever the copy cannot read back its own writes |
| `Boot.CopyReadSource` | blinky_led/Core/Startup/startup_stm32f103xx.c:55-58 | the word `*dataInit` read at offset `off` either was already written by the loop at a smaller offset, and then carries what that offset received, or still holds image word `off` |
| `Boot.CopyData` | blinky_led/Core/Startup/startup_stm32f103xx.c:51-58 | after the data loop, every word of `[_sdata, _edata)` equals the image word at the same offset when the copy is forward-safe, and no word outside the region changes in any layout |
| `Boot.OverlappingCopyRepeats` | blinky_led/Core/Startup/startup_stm32f103xx.c:55-58 | if the image overlaps the region from `d` words below, the copied region repeats with period `d` |
| `Boot.ZeroBss` | blinky_led/Core/Startup/startup_stm32f103xx.c:61-66 | after the bss loop, every word of `[_sbss, _ebss)` is zero and every other word is unchanged |
| `Boot.InitMemory` | blinky_led/Core/Startup/startup_stm32f103xx.c:51-66 | after both loops, in every layout, bss is zero (the fill runs second, so it wins where the regions overlap) and every word outside the data and bss regions is unchanged |
| `Boot.InitMemoryCorrect` | blinky_led/Core/Startup/startup_stm32f103xx.c:51-66 | with disjoint regions, the whole memory initialisation loads the data region from the image, zeroes bss, leaves the image intact, and leaves every other word unchanged |
| `Boot.EmptyRegionsUntouched` | blinky_led/Core/Startup/startup_stm32f103xx.c:55-66 | by the strict `<` guards, `_edata <= _sdata` makes the data loop a no-op and `_ebss <= _sbss` makes the bss loop a no-op |
| `Boot.BootTrace` | blinky_led/Core/Startup/startup_stm32f103xx.c:55-80 | a reset starts with the five boot steps in source order, has one more step exactly when `main` returns, and contains the final hang exactly when `main` returns |
| `Boot.BootTraceDistinct` | blinky_led/Core/Startup/startup_stm32f103xx.c:55-80 | no step of a reset happens twice |
| `Boot.BootTraceOrdered` | blinky_led/Core/Startup/startup_stm32f103xx.c:55-80 | data copy, bss clear, `SystemInit`, `__libc_init_array` and `main` each happen exactly once and in that order; the final hang happens once, last, and only if `main` returns |
| `Boot.CopyDataLoop` | blinky_led/Core/Startup/startup_stm32f103xx.c:51-58 | the loop stores exactly `DataLen` words (one per word of a non-empty `[_sdata, _edata)`, none otherwise), `data` stops at `_edata` (or stays at `_sdata` when the region is empty or inverted), and memory becomes `CopyData` of the old memory |
| `Boot.ZeroBssLoop` | blinky_led/Core/Startup/startup_stm32f103xx.c:61-66 | the loop stores exactly `BssLen` zeros, `bss` stops at `_ebss` (or stays at `_sbss`), and memory becomes `ZeroBss` of the old memory |
| `Boot.ResetHandler` | blinky_led/Core/Startup/startup_stm32f103xx.c:47-82 | memory as `SystemInit` finds it is `InitMemory` of the memory at reset (copy, then fill); the loops store `DataLen` and `BssLen` words and their pointers stop at `_edata` and `_ebss`; the steps taken are exactly `BootTrace` |
| `Vectors.CoreExceptionNumber` | blinky_led/Core/Startup/startup_stm32f103xx.c:163-177 | every core exception handler has an architectural exception number from 1 to 15 |
| `Vectors.IrqNumber` | blinky_led/Core/Startup/startup_stm32f103xx.c:178-220 | every peripheral interrupt has an IRQ number from 0 to 42 |
| `Vectors.ExceptionNumber` | blinky_led/Core/Startup/startup_stm32f103xx.c:162-220 | every handler's exception number addresses a table word from 1 to 58, and that number is 16 or more iff the handler serves a peripheral interrupt |
| `Vectors.FixedSlots` | blinky_led/Core/Startup/startup_stm32f103xx.c:160-228 | the table has 67 words; word 0 is `&_estack`, word 1 is `Reset_Handler`, words 7-10, 13 and 59-65 (and no others) are zero, and the last word is `BootRAM` |
| `Vectors.PeripheralAtIrq` | blinky_led/Core/Startup/startup_stm32f103xx.c:178-220 | the peripheral part of the table lists every interrupt at its RM0008 IRQ number |
| `Vectors.HandlerAtExceptionNumber` | blinky_led/Core/Startup/startup_stm32f103xx.c:162-220 | every handler sits in the table word its exception number designates: NMI at 2 through SysTick at 15, WWDG at 16 through USBWakeUp at 58 |
| `Vectors.PeripheralSlot` | blinky_led/Core/Startup/startup_stm32f103xx.c:178-220 | word `16 + j` of the table holds a handler, and it is the handler of IRQ `j` |
| `Vectors.SlotIsExceptionNumber` | blinky_led/Core/Startup/startup_stm32f103xx.c:160-228 | a table word holding a handler is at that handler's exception number, so no handler appears twice or out of place |
| `Vectors.ExceptionNumbersDistinct` | blinky_led/Core/Startup/startup_stm32f103xx.c:160-228 | distinct handlers have distinct exception numbers, so no table word is shared |
| `Vectors.Resolve` | blinky_led/Core/Startup/startup_stm32f103xx.c:97-154 | `Reset_Handler` always binds to the startup file's routine; a weak handler binds to the application's routine iff the application defines it, and otherwise to the weak stub |
| `Vectors.Invoke` | blinky_led/Core/Startup/startup_stm32f103xx.c:88-154 | invoking a weak stub yields `DefaultLoop`, `Default_Handler`'s `while(1);`, and no other binding yields it: the reset binding yields `Boots` and an application binding yields the opaque `RunsApplication(h)` |
| `Vectors.LinkedTable` | blinky_led/Core/Startup/startup_stm32f103xx.c:97-228 | the linked table has one word per entry: a word holds code exactly where the source names a handler, and that code is the handler name bound by `Resolve`; it is zero exactly where the source writes `0` |
| `Vectors.ResetVectors` | blinky_led/Core/Startup/startup_stm32f103xx.c:162-163 | whatever the application overrides, the linked table's word 0 is `_estack` and word 1 is `Reset_Handler`, which the model labels `Boots`, which `Boot.ResetHandler` models |
| `Vectors.UnoverriddenVectorsReachDefault` | blinky_led/Core/Startup/startup_stm32f103xx.c:103-154 | a table word naming a weak handler that the application does not define runs `Default_Handler`; one it does define runs the application's routine |
| `Vectors.NoOverridesAllReachDefault` | blinky_led/Core/Startup/startup_stm32f103xx.c:88-91 | with no application handlers, every handler word except the reset vector runs `Default_Handler` |

## Left out

- The bodies of `SystemInit`, `__libc_init_array` and `main` come from other files and from libc, and they are not part of this model. They appear only as steps of the boot trace. The model assumes they do not change the memory words it tracks. Whether `main` returns is a parameter of `ResetHandler`.
- Machine addresses and byte granularity are not modelled. The linker symbols are word indices, so a region boundary that is not word-aligned is not modelled, and neither is an address range that wraps at 2^32.
- The linker script and section placement (`.isr_vector`) are not modelled. The layout is a parameter, and `Fits` requires only that every word the loops touch exists.
- The weak-linkage mechanism itself is not modelled. Only its outcome is: the set of handler names the application defines. If the application also defined `Reset_Handler`, the link would fail with a duplicate definition. That case is not modelled, and `Resolve` keeps the startup file's `Reset_Handler`.
- `Vectors.Invoke`: what an application routine does is not modelled. `RunsApplication(h)` is an opaque label, so the model does not capture an application handler that itself calls `Default_Handler`, which has external linkage (line 88), or that loops on its own. The "only weak stubs yield `DefaultLoop`" half of the contract is about these labels, not about application code.
- Hardware exception entry and the actual `while(1);` spinning are not modelled. Non-return is the `Hang` step of the boot trace or the `DefaultLoop` outcome, not divergence. `Invoke` does not say whether the reset routine or an application routine returns. The reset routine's own final loop is the `Hang` step of `BootTrace`.
- The numeric value of `BootRAM` is defined outside this file, so the model treats it as an opaque entry.
- The casts of `&_estack` and the handlers to function-pointer words are not modelled. Entries are symbolic, and the stack top is the layout's `estack` index.
