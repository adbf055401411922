/**
 * The interrupt vector table of the STM32F103 startup file and the weak
 * handler definitions it points at.
 *
 * Each named handler except Reset_Handler is defined weakly in the startup
 * file with a body that calls Default_Handler, which loops forever. An
 * application that defines a handler of the same name replaces the weak one
 * at link time. The table itself is a constant list of 67 words: the initial
 * stack pointer, the reset handler, the Cortex-M3 system exceptions with their
 * reserved slots, the 43 STM32F103 medium-density peripheral interrupts, seven
 * unused words and the BootRAM word.
 */
module Vectors {
  import Boot

  /** Every handler the table names, in table order. */
  datatype Handler =
    | Reset
    | NMI | HardFault | MemManage | BusFault | UsageFault
    | SVC | DebugMon | PendSV | SysTick
    | WWDG | PVD | TAMPER | RTC | FLASH | RCC
    | EXTI0 | EXTI1 | EXTI2 | EXTI3 | EXTI4
    | DMA1_Channel1 | DMA1_Channel2 | DMA1_Channel3 | DMA1_Channel4
    | DMA1_Channel5 | DMA1_Channel6 | DMA1_Channel7
    | ADC1_2 | USB_HP_CAN1_TX | USB_LP_CAN1_RX0 | CAN1_RX1 | CAN1_SCE
    | EXTI9_5 | TIM1_BRK | TIM1_UP | TIM1_TRG_COM | TIM1_CC
    | TIM2 | TIM3 | TIM4 | I2C1_EV | I2C1_ER | I2C2_EV | I2C2_ER
    | SPI1 | SPI2 | USART1 | USART2 | USART3
    | EXTI15_10 | RTC_Alarm | USBWakeUp

  /** One word of the table as the source writes it. */
  datatype Entry =
    | StackTop           // &_estack
    | Handler(h: Handler)
    | Reserved           // a literal 0
    | BootRam            // the BootRAM word, whose value is not defined in this file

  /** The table, slot by slot, as initialised in the startup file, in its
      three parts: the sixteen core-exception words, the 43 peripheral
      interrupt words, and the trailing words. */
  const VectorTable: seq<Entry> := CoreVectors + PeripheralVectors + TrailerVectors

  /** Words 0-15: stack top, reset, and the Cortex-M3 system exceptions. */
  const CoreVectors: seq<Entry> := [
    StackTop,
    Handler(Reset),
    Handler(NMI),
    Handler(HardFault),
    Handler(MemManage),
    Handler(BusFault),
    Handler(UsageFault),
    Reserved,
    Reserved,
    Reserved,
    Reserved,
    Handler(SVC),
    Handler(DebugMon),
    Reserved,
    Handler(PendSV),
    Handler(SysTick)
  ]

  /** Words 16-58: the peripheral interrupts IRQ0 to IRQ42, grouped by peripheral. */
  const PeripheralVectors: seq<Entry> :=
    Irq0To5Vectors + Irq6To10Vectors + Irq11To17Vectors + Irq18To22Vectors +
    Irq23To30Vectors + Irq31To39Vectors + Irq40To42Vectors

  /** IRQ0-5: watchdog, voltage detector, tamper, RTC, flash and clock control. */
  const Irq0To5Vectors: seq<Entry> := [
    Handler(WWDG),
    Handler(PVD),
    Handler(TAMPER),
    Handler(RTC),
    Handler(FLASH),
    Handler(RCC)
  ]

  /** IRQ6-10: external interrupt lines 0 to 4. */
  const Irq6To10Vectors: seq<Entry> := [
    Handler(EXTI0),
    Handler(EXTI1),
    Handler(EXTI2),
    Handler(EXTI3),
    Handler(EXTI4)
  ]

  /** IRQ11-17: DMA1 channels 1 to 7. */
  const Irq11To17Vectors: seq<Entry> := [
    Handler(DMA1_Channel1),
    Handler(DMA1_Channel2),
    Handler(DMA1_Channel3),
    Handler(DMA1_Channel4),
    Handler(DMA1_Channel5),
    Handler(DMA1_Channel6),
    Handler(DMA1_Channel7)
  ]

  /** IRQ18-22: ADC1/2, and USB and CAN sharing their interrupts. */
  const Irq18To22Vectors: seq<Entry> := [
    Handler(ADC1_2),
    Handler(USB_HP_CAN1_TX),
    Handler(USB_LP_CAN1_RX0),
    Handler(CAN1_RX1),
    Handler(CAN1_SCE)
  ]

  /** IRQ23-30: external lines 9 to 5, TIM1 to TIM4. */
  const Irq23To30Vectors: seq<Entry> := [
    Handler(EXTI9_5),
    Handler(TIM1_BRK),
    Handler(TIM1_UP),
    Handler(TIM1_TRG_COM),
    Handler(TIM1_CC),
    Handler(TIM2),
    Handler(TIM3),
    Handler(TIM4)
  ]

  /** IRQ31-39: I2C1, I2C2, SPI1, SPI2, USART1 to USART3. */
  const Irq31To39Vectors: seq<Entry> := [
    Handler(I2C1_EV),
    Handler(I2C1_ER),
    Handler(I2C2_EV),
    Handler(I2C2_ER),
    Handler(SPI1),
    Handler(SPI2),
    Handler(USART1),
    Handler(USART2),
    Handler(USART3)
  ]

  /** IRQ40-42: external lines 15 to 10, RTC alarm, USB wakeup. */
  const Irq40To42Vectors: seq<Entry> := [
    Handler(EXTI15_10),
    Handler(RTC_Alarm),
    Handler(USBWakeUp)
  ]

  /** Words 59-66: seven unused words and BootRAM. */
  const TrailerVectors: seq<Entry> := [
    Reserved,
    Reserved,
    Reserved,
    Reserved,
    Reserved,
    Reserved,
    Reserved,
    BootRam
  ]

  /** The position interrupt requests start at: exception number 16 is IRQ0. */
  const FirstIrqSlot: nat := 16

  /** Whether a handler serves a peripheral interrupt rather than a core exception. */
  predicate IsPeripheral(h: Handler)
  {
    !(h.Reset? || h.NMI? || h.HardFault? || h.MemManage? || h.BusFault? ||
      h.UsageFault? || h.SVC? || h.DebugMon? || h.PendSV? || h.SysTick?)
  }

  /** The peripheral interrupt number (IRQn) of each STM32F103 medium-density
      interrupt source, from the vendor's interrupt and exception vector list. */
  function IrqNumber(h: Handler): (n: nat)
    requires IsPeripheral(h)
    ensures n <= 42
  {
    match h
    case WWDG => 0
    case PVD => 1
    case TAMPER => 2
    case RTC => 3
    case FLASH => 4
    case RCC => 5
    case EXTI0 => 6
    case EXTI1 => 7
    case EXTI2 => 8
    case EXTI3 => 9
    case EXTI4 => 10
    case DMA1_Channel1 => 11
    case DMA1_Channel2 => 12
    case DMA1_Channel3 => 13
    case DMA1_Channel4 => 14
    case DMA1_Channel5 => 15
    case DMA1_Channel6 => 16
    case DMA1_Channel7 => 17
    case ADC1_2 => 18
    case USB_HP_CAN1_TX => 19
    case USB_LP_CAN1_RX0 => 20
    case CAN1_RX1 => 21
    case CAN1_SCE => 22
    case EXTI9_5 => 23
    case TIM1_BRK => 24
    case TIM1_UP => 25
    case TIM1_TRG_COM => 26
    case TIM1_CC => 27
    case TIM2 => 28
    case TIM3 => 29
    case TIM4 => 30
    case I2C1_EV => 31
    case I2C1_ER => 32
    case I2C2_EV => 33
    case I2C2_ER => 34
    case SPI1 => 35
    case SPI2 => 36
    case USART1 => 37
    case USART2 => 38
    case USART3 => 39
    case EXTI15_10 => 40
    case RTC_Alarm => 41
    case USBWakeUp => 42
  }

  /** The fixed exception numbers of the Cortex-M3 core exceptions (ARMv7-M
      Architecture Reference Manual, section B1.5.2). */
  function CoreExceptionNumber(h: Handler): (n: nat)
    requires !IsPeripheral(h)
    ensures 1 <= n < FirstIrqSlot
  {
    match h
    case Reset => 1
    case NMI => 2
    case HardFault => 3
    case MemManage => 4
    case BusFault => 5
    case UsageFault => 6
    case SVC => 11
    case DebugMon => 12
    case PendSV => 14
    case SysTick => 15
  }

  /** The exception number of each handler: a core exception's own number, or
      16 plus the IRQ number for a peripheral interrupt. The processor fetches
      exception number n's handler from table word n (ARMv7-M Architecture
      Reference Manual, section B1.5.3). */
  function ExceptionNumber(h: Handler): (n: nat)
    ensures 1 <= n < FirstIrqSlot + 43
    ensures IsPeripheral(h) <==> n >= FirstIrqSlot
  {
    if IsPeripheral(h) then FirstIrqSlot + IrqNumber(h) else CoreExceptionNumber(h)
  }

  /** Word i of the table, read from the part that holds it. */
  lemma VectorTableAt(i: nat)
    requires i < |VectorTable|
    ensures |VectorTable| == 67
    ensures |CoreVectors| == 16 && |PeripheralVectors| == 43 && |TrailerVectors| == 8
    ensures VectorTable[i] ==
      if i < 16 then CoreVectors[i]
      else if i < 59 then PeripheralVectors[i - 16]
      else TrailerVectors[i - 59]
  {
  }

  /** The fixed words of the table: its length, the stack top and the reset
      handler first, the reserved core-exception slots, and the seven unused
      words before BootRAM at the end. */
  lemma FixedSlots()
    ensures |VectorTable| == 67
    ensures VectorTable[0] == StackTop && VectorTable[1] == Handler(Reset)
    ensures forall i :: 0 <= i < |VectorTable| ==>
      (VectorTable[i] == Reserved <==> 7 <= i <= 10 || i == 13 || 59 <= i <= 65)
    ensures VectorTable[|VectorTable| - 1] == BootRam
  {
    VectorTableAt(0);
    VectorTableAt(1);
    VectorTableAt(66);
    forall i | 0 <= i < |VectorTable|
      ensures VectorTable[i] == Reserved <==> 7 <= i <= 10 || i == 13 || 59 <= i <= 65
    {
      VectorTableAt(i);
      if 16 <= i < 59 {
        PeripheralSlot(i - 16);
      }
    }
  }

  /** The peripheral part of the table lists each interrupt at its IRQ number. */
  lemma PeripheralAtIrq(h: Handler)
    requires IsPeripheral(h)
    ensures PeripheralVectors[IrqNumber(h)] == Handler(h)
  {
    match h
    case WWDG =>
    case PVD =>
    case TAMPER =>
    case RTC =>
    case FLASH =>
    case RCC =>
    case EXTI0 =>
    case EXTI1 =>
    case EXTI2 =>
    case EXTI3 =>
    case EXTI4 =>
    case DMA1_Channel1 =>
    case DMA1_Channel2 =>
    case DMA1_Channel3 =>
    case DMA1_Channel4 =>
    case DMA1_Channel5 =>
    case DMA1_Channel6 =>
    case DMA1_Channel7 =>
    case ADC1_2 =>
    case USB_HP_CAN1_TX =>
    case USB_LP_CAN1_RX0 =>
    case CAN1_RX1 =>
    case CAN1_SCE =>
    case EXTI9_5 =>
    case TIM1_BRK =>
    case TIM1_UP =>
    case TIM1_TRG_COM =>
    case TIM1_CC =>
    case TIM2 =>
    case TIM3 =>
    case TIM4 =>
    case I2C1_EV =>
    case I2C1_ER =>
    case I2C2_EV =>
    case I2C2_ER =>
    case SPI1 =>
    case SPI2 =>
    case USART1 =>
    case USART2 =>
    case USART3 =>
    case EXTI15_10 =>
    case RTC_Alarm =>
    case USBWakeUp =>
    case _ =>
      assert false;
  }

  /** The core part of the table lists every core handler at its
      architectural exception number. */
  lemma CoreAtExceptionNumber(h: Handler)
    requires !IsPeripheral(h)
    ensures CoreExceptionNumber(h) < |CoreVectors|
    ensures CoreVectors[CoreExceptionNumber(h)] == Handler(h)
  {
    match h
    case Reset =>
    case NMI =>
    case HardFault =>
    case MemManage =>
    case BusFault =>
    case UsageFault =>
    case SVC =>
    case DebugMon =>
    case PendSV =>
    case SysTick =>
  }

  /** Every handler sits at the slot its exception number designates. */
  lemma HandlerAtExceptionNumber(h: Handler)
    ensures VectorTable[ExceptionNumber(h)] == Handler(h)
  {
    var n := ExceptionNumber(h);
    VectorTableAt(n);
    if IsPeripheral(h) {
      PeripheralAtIrq(h);
      assert VectorTable[n] == PeripheralVectors[IrqNumber(h)];
    } else {
      CoreAtExceptionNumber(h);
      assert VectorTable[n] == CoreVectors[CoreExceptionNumber(h)];
    }
  }

  /** Each part of the table, read word by word, holds at word j the handler
      whose exception number is the part's first slot plus j. */
  lemma CoreNumbered()
    ensures forall i :: 0 <= i < |CoreVectors| && CoreVectors[i].Handler? ==>
      ExceptionNumber(CoreVectors[i].h) == i
  {
  }

  lemma Irq0To5Numbered()
    ensures forall j :: 0 <= j < |Irq0To5Vectors| ==>
      Irq0To5Vectors[j].Handler? && ExceptionNumber(Irq0To5Vectors[j].h) == 16 + j
  {
  }

  lemma Irq6To10Numbered()
    ensures forall j :: 0 <= j < |Irq6To10Vectors| ==>
      Irq6To10Vectors[j].Handler? && ExceptionNumber(Irq6To10Vectors[j].h) == 22 + j
  {
  }

  lemma Irq11To17Numbered()
    ensures forall j :: 0 <= j < |Irq11To17Vectors| ==>
      Irq11To17Vectors[j].Handler? && ExceptionNumber(Irq11To17Vectors[j].h) == 27 + j
  {
  }

  lemma Irq18To22Numbered()
    ensures forall j :: 0 <= j < |Irq18To22Vectors| ==>
      Irq18To22Vectors[j].Handler? && ExceptionNumber(Irq18To22Vectors[j].h) == 34 + j
  {
  }

  lemma Irq23To30Numbered()
    ensures forall j :: 0 <= j < |Irq23To30Vectors| ==>
      Irq23To30Vectors[j].Handler? && ExceptionNumber(Irq23To30Vectors[j].h) == 39 + j
  {
  }

  lemma Irq31To39Numbered()
    ensures forall j :: 0 <= j < |Irq31To39Vectors| ==>
      Irq31To39Vectors[j].Handler? && ExceptionNumber(Irq31To39Vectors[j].h) == 47 + j
  {
  }

  lemma Irq40To42Numbered()
    ensures forall j :: 0 <= j < |Irq40To42Vectors| ==>
      Irq40To42Vectors[j].Handler? && ExceptionNumber(Irq40To42Vectors[j].h) == 56 + j
  {
  }

  /** Word j of the peripheral part holds the handler of IRQ j. */
  lemma PeripheralSlot(j: nat)
    requires j < |PeripheralVectors|
    ensures PeripheralVectors[j].Handler?
    ensures ExceptionNumber(PeripheralVectors[j].h) == FirstIrqSlot + j
  {
    if j < 6 {
      assert PeripheralVectors[j] == Irq0To5Vectors[j];
      Irq0To5Numbered();
    } else if j < 11 {
      assert PeripheralVectors[j] == Irq6To10Vectors[j - 6];
      Irq6To10Numbered();
    } else if j < 18 {
      assert PeripheralVectors[j] == Irq11To17Vectors[j - 11];
      Irq11To17Numbered();
    } else if j < 23 {
      assert PeripheralVectors[j] == Irq18To22Vectors[j - 18];
      Irq18To22Numbered();
    } else if j < 31 {
      assert PeripheralVectors[j] == Irq23To30Vectors[j - 23];
      Irq23To30Numbered();
    } else if j < 40 {
      assert PeripheralVectors[j] == Irq31To39Vectors[j - 31];
      Irq31To39Numbered();
    } else {
      assert PeripheralVectors[j] == Irq40To42Vectors[j - 40];
      Irq40To42Numbered();
    }
  }

  /** ...and only there: a slot holding a handler is that handler's exception number. */
  lemma SlotIsExceptionNumber(i: nat)
    requires i < |VectorTable| && VectorTable[i].Handler?
    ensures ExceptionNumber(VectorTable[i].h) == i
  {
    VectorTableAt(i);
    if i < 16 {
      CoreNumbered();
    } else if i < 59 {
      PeripheralSlot(i - 16);
    }
  }

  /** Distinct handlers have distinct exception numbers, so no slot is shared. */
  lemma ExceptionNumbersDistinct(h1: Handler, h2: Handler)
    requires h1 != h2
    ensures ExceptionNumber(h1) != ExceptionNumber(h2)
  {
    HandlerAtExceptionNumber(h1);
    HandlerAtExceptionNumber(h2);
  }

  /** What a handler name is bound to after linking. */
  datatype Target =
    | ResetRoutine          // Reset_Handler, defined strongly in the startup file
    | Application(h: Handler) // a same-named routine the application defines
    | WeakStub(h: Handler)  // the startup file's weak definition, which calls Default_Handler

  /** Reset_Handler is not weak; every other handler is. */
  predicate IsWeak(h: Handler) { !h.Reset? }

  /** Weak-symbol resolution: an application definition of the same name wins
      over the weak one; with none, the weak stub stays. */
  function Resolve(h: Handler, overrides: set<Handler>): (t: Target)
    ensures t.ResetRoutine? <==> h == Reset
    ensures t == Application(h) <==> IsWeak(h) && h in overrides
    ensures t == WeakStub(h) <==> IsWeak(h) && h !in overrides
  {
    if !IsWeak(h) then ResetRoutine
    else if h in overrides then Application(h)
    else WeakStub(h)
  }

  /** What control does once a bound routine is entered, as far as this file
      can tell. Only the first is determined here; the other two are labels. */
  datatype Outcome =
    | DefaultLoop               // Default_Handler's `while(1);`
    | Boots                     // labels the reset routine, which Boot.ResetHandler models
    | RunsApplication(h: Handler) // opaque application code, outside this model

  /** Default_Handler: `while(1);`. */
  function DefaultHandler(): (o: Outcome)
  {
    DefaultLoop
  }

  /** Invoking a bound routine. A weak stub's only action is to call
      Default_Handler, so it yields DefaultLoop; the reset binding yields Boots;
      an application binding yields the opaque RunsApplication(h), and what that
      code does, calling Default_Handler included, is outside this model. */
  function Invoke(t: Target): (o: Outcome)
    ensures o == DefaultLoop <==> t.WeakStub?
  {
    match t
    case ResetRoutine => Boots
    case Application(h) => RunsApplication(h)
    case WeakStub(_) => DefaultHandler()
  }

  /** One word of the table after linking. */
  datatype Vector =
    | InitialSp(addr: nat)
    | Code(t: Target)
    | Null
    | BootRamWord

  /** The table as the processor reads it: the stack top from the link layout
      and each handler name bound by weak-symbol resolution. */
  function LinkedTable(l: Boot.LinkLayout, overrides: set<Handler>): (v: seq<Vector>)
    ensures |v| == |VectorTable|
    ensures forall i :: 0 <= i < |v| ==> (v[i].Code? <==> VectorTable[i].Handler?)
    ensures forall i :: 0 <= i < |v| && VectorTable[i].Handler? ==>
      v[i].t == Resolve(VectorTable[i].h, overrides)
    ensures forall i :: 0 <= i < |v| ==> (v[i] == Null <==> VectorTable[i] == Reserved)
  {
    seq(|VectorTable|, i requires 0 <= i < |VectorTable| =>
      match VectorTable[i]
      case StackTop => InitialSp(l.estack)
      case Handler(h) => Code(Resolve(h, overrides))
      case Reserved => Null
      case BootRam => BootRamWord)
  }

  /** The two words read at reset do not depend on the application: the initial
      stack pointer is `_estack` and the initial program counter is Reset_Handler,
      labelled Boots: the routine Boot.ResetHandler models. */
  lemma ResetVectors(l: Boot.LinkLayout, overrides: set<Handler>)
    ensures LinkedTable(l, overrides)[0] == InitialSp(l.estack)
    ensures LinkedTable(l, overrides)[1] == Code(ResetRoutine)
    ensures Invoke(LinkedTable(l, overrides)[1].t) == Boots
  {
  }

  /** Every slot naming a handler the application does not define leads to
      Default_Handler and never returns; every slot naming one it does define
      leads to the application's routine. */
  lemma UnoverriddenVectorsReachDefault(l: Boot.LinkLayout, overrides: set<Handler>, i: nat)
    requires i < |VectorTable| && VectorTable[i].Handler? && IsWeak(VectorTable[i].h)
    ensures VectorTable[i].h !in overrides ==>
      LinkedTable(l, overrides)[i] == Code(WeakStub(VectorTable[i].h)) &&
      Invoke(LinkedTable(l, overrides)[i].t) == DefaultLoop
    ensures VectorTable[i].h in overrides ==>
      LinkedTable(l, overrides)[i] == Code(Application(VectorTable[i].h)) &&
      Invoke(LinkedTable(l, overrides)[i].t) == RunsApplication(VectorTable[i].h)
  {
  }

  /** With no application handlers at all, every weak slot runs Default_Handler: the image
      built from the startup file alone traps every exception but reset. */
  lemma NoOverridesAllReachDefault(l: Boot.LinkLayout, i: nat)
    requires i < |VectorTable| && VectorTable[i].Handler? && i != 1
    ensures Invoke(LinkedTable(l, {})[i].t) == DefaultLoop
  {
    SlotIsExceptionNumber(i);
    UnoverriddenVectorsReachDefault(l, {}, i);
  }
}
