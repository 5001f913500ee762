/** The sorter's configuration and its builder (core/.../Config.java):
    the number of words held in memory per run is worked out from the heap
    size in megabytes and a maximum word size, in Java's 32-bit int
    arithmetic, and clamped into [MIN_BUFFER_SIZE, MAX_BUFFER_SIZE]. */
module Configuration {
  import opened Wrappers

  // ---------------------------------------------------------------------
  // Java int arithmetic

  const TWO_POW_32: int := 0x1_0000_0000
  const INT_MIN: int := -0x8000_0000
  const INT_MAX: int := 0x7fff_ffff

  /** A Java int. */
  type Int32 = x: int | -0x8000_0000 <= x < 0x8000_0000

  /** Two's-complement wrap-around of an exact result into a Java int. */
  function Wrap32(x: int): (r: Int32)
    ensures (x - r) % TWO_POW_32 == 0
    ensures INT_MIN <= x <= INT_MAX ==> r == x
  {
    var m := x % TWO_POW_32;
    if m <= INT_MAX then m else m - TWO_POW_32
  }

  /** Java's integer division, which truncates toward zero (Dafny's `/` is
      Euclidean): the remainder `a - q * b` is smaller than `b` in magnitude
      and is zero or takes the sign of the dividend. */
  function JavaDiv(a: int, b: int): (q: int)
    requires b != 0
    ensures var rem := a - q * b;
      (if rem < 0 then -rem else rem) < (if b < 0 then -b else b) &&
      (rem == 0 || (rem < 0) == (a < 0))
    ensures a >= 0 && b > 0 ==> q == a / b
  {
    var na := if a < 0 then -a else a;
    var nb := if b < 0 then -b else b;
    var q := na / nb;
    assert na == q * nb + na % nb && 0 <= na % nb < nb;
    assert q * b == (if b < 0 then -(q * nb) else q * nb);
    if (a < 0) == (b < 0) then q else -q
  }

  function Add32(a: Int32, b: Int32): Int32 { Wrap32(a + b) }
  function Sub32(a: Int32, b: Int32): Int32 { Wrap32(a - b) }
  function Mul32(a: Int32, b: Int32): Int32 { Wrap32(a * b) }
  function Div32(a: Int32, b: Int32): Int32
    requires b != 0
  {
    Wrap32(JavaDiv(a, b))
  }

  function Min(a: int, b: int): int { if a <= b then a else b }
  function Max(a: int, b: int): int { if a >= b then a else b }

  // ---------------------------------------------------------------------
  // Constants (Config.java:26-36)

  const DEFAULT_MAX_WORD_SIZE: Int32 := 100
  const MIN_BUFFER_SIZE: Int32 := 200_000
  const MAX_BUFFER_SIZE: Int32 := 1_000_000
  const RESERVED_HEAP_SIZE: Int32 := 2_097_152

  /** A file system path, taken as an opaque value. */
  type Path = string

  /** `sorted.txt` in the working directory; the working directory itself
      is a process property outside this model. */
  const DEFAULT_OUTPUT_FILE: Path := "sorted.txt"

  /** The exception build() can throw: integer division by zero. */
  datatype BuildError = ArithmeticException

  // ---------------------------------------------------------------------
  // Buffer size

  /** Estimated bytes per word, from the raw builder value m:
      8 * ((m * 2 + 45) / 8) - 8 in int arithmetic. */
  function Cost(m: Int32): Int32
  {
    Sub32(Mul32(8, Div32(Add32(Mul32(m, 2), 45), 8)), 8)
  }

  /** Heap bytes left for the buffer: heap * 1024 * 1024 - RESERVED_HEAP_SIZE
      in int arithmetic. */
  function Available(heap: Int32): Int32
  {
    Sub32(Mul32(Mul32(heap, 1024), 1024), RESERVED_HEAP_SIZE)
  }

  /** The buffer size build() stores, or the exception it throws. */
  function BufferSize(heap: Int32, m: Int32): (r: Result<Int32, BuildError>)
    ensures r.Success? ==> MIN_BUFFER_SIZE <= r.value <= MAX_BUFFER_SIZE
    ensures heap <= 0 ==> r == Success(MIN_BUFFER_SIZE)
    ensures r.Failure? <==> heap > 0 && Cost(m) == 0
  {
    if heap > 0 then
      var wordSize := Cost(m);
      if wordSize == 0 then Failure(ArithmeticException)
      else
        var bufferSize := Div32(Available(heap), wordSize);
        Success(Min(Max(bufferSize, MIN_BUFFER_SIZE), MAX_BUFFER_SIZE))
    else
      Success(MIN_BUFFER_SIZE)
  }

  /** Adding a multiple of 2^32 does not change the wrapped value. */
  lemma Wrap32Periodic(x: int, j: int)
    ensures Wrap32(x + j * TWO_POW_32) == Wrap32(x)
  {
    var y := x + j * TWO_POW_32;
    var q, r := x / TWO_POW_32, x % TWO_POW_32;
    assert x == q * TWO_POW_32 + r;
    assert y == (q + j) * TWO_POW_32 + r;
    assert y % TWO_POW_32 == r && y / TWO_POW_32 == q + j;
  }

  /** A wrapped value differs from the exact one by a multiple of 2^32. */
  lemma Wrap32Offset(x: int) returns (j: int)
    ensures Wrap32(x) == x + j * TWO_POW_32
  {
    j := -(x / TWO_POW_32) + (if x % TWO_POW_32 <= INT_MAX then 0 else -1);
  }

  /** Wrapping after each multiplication wraps the exact product. */
  lemma Wrap32Mul(x: int, c: int)
    ensures Wrap32(Wrap32(x) * c) == Wrap32(x * c)
  {
    var j := Wrap32Offset(x);
    assert Wrap32(x) * c == x * c + (j * c) * TWO_POW_32;
    Wrap32Periodic(x * c, j * c);
  }

  /** Wrapping before a subtraction wraps the exact difference. */
  lemma Wrap32Sub(x: int, d: int)
    ensures Wrap32(Wrap32(x) - d) == Wrap32(x - d)
  {
    var j := Wrap32Offset(x);
    assert Wrap32(x) - d == x - d + j * TWO_POW_32;
    Wrap32Periodic(x - d, j);
  }

  /** The available heap is the exact heap * 2^20 - RESERVED_HEAP_SIZE
      wrapped once into a Java int. */
  lemma AvailableWrapped(heap: Int32)
    ensures Available(heap) == Wrap32(heap * 1048576 - RESERVED_HEAP_SIZE)
  {
    Wrap32Mul(heap * 1024, 1024);
    assert heap * 1024 * 1024 == heap * 1048576;
    Wrap32Sub(heap * 1048576, RESERVED_HEAP_SIZE);
  }

  /** With a positive heap and a non-zero cost build() divides the wrapped
      available heap by the cost, truncating, and clamps the quotient. */
  lemma BufferSizeFormula(heap: Int32, m: Int32)
    requires heap > 0 && Cost(m) != 0
    ensures BufferSize(heap, m) == Success(Min(Max(
      Div32(Wrap32(heap * 1048576 - RESERVED_HEAP_SIZE), Cost(m)), MIN_BUFFER_SIZE), MAX_BUFFER_SIZE))
  {
    AvailableWrapped(heap);
  }

  /** The cost formula, with no intermediate wrap-around, for word sizes
      whose doubling plus 45 stays inside int. */
  lemma CostNoWrap(m: Int32)
    requires -0x4000_0000 <= m < 0x4000_0000 - 23
    ensures Cost(m) == 8 * JavaDiv(2 * m + 45, 8) - 8
  {
    var q := JavaDiv(2 * m + 45, 8);
    assert -0x1000_0000 <= q < 0x1000_0000;
  }

  /** The cost is zero exactly for word sizes -18..-15 and, because m * 2
      wraps around, for 2147483630..2147483633. */
  lemma CostZeroIff(m: Int32)
    ensures Cost(m) == 0 <==> (-18 <= m <= -15 || 2147483630 <= m <= 2147483633)
  {
    var x := Mul32(m, 2);
    var y := Add32(x, 45);
    CostZeroStep(y);
    assert 8 <= y <= 15 <==> -37 <= x <= -30;
    DoubledInRange(m);
  }

  /** The last three operations of the cost formula give 0 exactly when the
      quotient by 8 is 1. */
  lemma CostZeroStep(y: Int32)
    ensures Sub32(Mul32(8, Div32(y, 8)), 8) == 0 <==> 8 <= y <= 15
  {
    var q := JavaDiv(y, 8);
    assert -0x1000_0000 <= q < 0x1000_0000;
    assert Div32(y, 8) == q;
    assert Mul32(8, q) == 8 * q;
    assert q == 1 <==> 8 <= y <= 15;
  }

  lemma DoubledInRange(m: Int32)
    ensures -37 <= Mul32(m, 2) <= -30 <==> (-18 <= m <= -15 || 2147483630 <= m <= 2147483633)
  {
    if -0x4000_0000 <= m < 0x4000_0000 {
      assert Mul32(m, 2) == 2 * m;
    } else if m >= 0x4000_0000 {
      assert Mul32(m, 2) == 2 * m - TWO_POW_32;
    } else {
      assert Mul32(m, 2) == 2 * m + TWO_POW_32;
    }
  }

  /** A word size never set (0) costs 32 bytes, not the 232 bytes of the
      default 100 substituted afterwards. */
  lemma UnsetWordSizeCost()
    ensures Cost(0) == 32
    ensures Cost(DEFAULT_MAX_WORD_SIZE) == 232
  {
  }

  /** Word sizes from -2^30 to -19 give a negative cost. */
  lemma NegativeCost(m: Int32)
    requires -0x4000_0000 <= m <= -19
    ensures Cost(m) < 0
  {
    CostNoWrap(m);
  }

  /** Every cost is a multiple of 8, so a negative one is at most -8. */
  lemma CostMultipleOf8(m: Int32)
    ensures Cost(m) % 8 == 0
  {
    var q := Div32(Add32(Mul32(m, 2), 45), 8);
    var p := Mul32(8, q);
    ShiftMod8(0, q);
    Wrap32Mod8(8 * q);
    ShiftMod8(p, -1);
    Wrap32Mod8(p - 8);
    assert Cost(m) == Wrap32(p - 8);
  }

  /** Wrapping into a Java int keeps the remainder modulo 8, which divides 2^32. */
  lemma Wrap32Mod8(x: int)
    ensures Wrap32(x) % 8 == x % 8
  {
    var m := x % TWO_POW_32;
    var k := x / TWO_POW_32;
    assert x == TWO_POW_32 * k + m;
    assert TWO_POW_32 * k == 8 * (0x2000_0000 * k);
    ShiftMod8(m, 0x2000_0000 * k);
    ShiftMod8(m, -0x2000_0000);
  }

  lemma ShiftMod8(a: int, j: int)
    ensures (a + 8 * j) % 8 == a % 8
  {
  }

  /** For heap sizes 1..2047 (no overflow) a negative cost clamps to the
      minimum buffer size. */
  lemma NegativeCostGivesMin(heap: Int32, m: Int32)
    requires 0 < heap < 2048 && Cost(m) < 0
    ensures BufferSize(heap, m) == Success(MIN_BUFFER_SIZE)
  {
    CostMultipleOf8(m);
    NegativeDivisorClamps(heap, Cost(m));
  }

  lemma NegativeDivisorClamps(heap: Int32, c: Int32)
    requires 0 < heap < 2048 && c < 0 && c % 8 == 0
    ensures Min(Max(Div32(Available(heap), c), MIN_BUFFER_SIZE), MAX_BUFFER_SIZE) == MIN_BUFFER_SIZE
  {
    AvailableNoWrap(heap);
    var a: int := Available(heap);
    if a >= 0 {
      NonNegativeByNegative(a, c);
    } else {
      // only heap == 1 leaves a negative amount
      assert heap == 1 && a == -1048576;
      NegativeByNegative(c);
    }
  }

  lemma NonNegativeByNegative(a: nat, c: int)
    requires c < 0
    ensures JavaDiv(a, c) <= 0
  {
    DivNonneg(a, -c);
  }

  lemma NegativeByNegative(c: int)
    requires c < 0 && c % 8 == 0
    ensures 0 <= JavaDiv(-1048576, c) <= 1048576 / 8
  {
    DivNonneg(1048576, -c);
    DivAntitoneDivisor(1048576, -c, 8);
  }

  lemma DivNonneg(n: nat, d: int)
    requires d > 0
    ensures n / d >= 0
  {
  }

  /** A larger divisor gives a smaller quotient. */
  lemma DivAntitoneDivisor(n: nat, d: int, e: int)
    requires d >= e > 0
    ensures n / d <= n / e
  {
    var q := n / d;
    DivNonneg(n, d);
    assert d * q <= n;
    MulLeft(q, e, d);
    assert e * q <= n;
    if q > n / e {
      MulLeft(e, n / e + 1, q);
    }
  }

  lemma MulLeft(c: int, x: int, y: int)
    requires c >= 0 && x <= y
    ensures c * x <= c * y
  {
  }

  /** Below 2048 MB the heap arithmetic does not overflow. */
  lemma AvailableNoWrap(heap: Int32)
    requires 0 < heap < 2048
    ensures Available(heap) == heap * 1048576 - RESERVED_HEAP_SIZE
  {
  }

  /** Truncating division by a positive divisor is monotone in the dividend
      and no larger in magnitude than the dividend. */
  lemma JavaDivMonotone(a1: int, a2: int, c: int)
    requires a1 <= a2 && c > 0
    ensures JavaDiv(a1, c) <= JavaDiv(a2, c)
  {
    if a1 >= 0 {
      EuclidDivMonotone(a1, a2, c);
    } else if a2 < 0 {
      EuclidDivMonotone(-a2, -a1, c);
    } else {
      DivNonneg(-a1, c);
      DivNonneg(a2, c);
    }
  }

  lemma JavaDivBound(a: int, c: int)
    requires c > 0
    ensures -(if a < 0 then -a else a) <= JavaDiv(a, c) <= (if a < 0 then -a else a)
  {
    var n := if a < 0 then -a else a;
    DivNonneg(n, c);
    DivAntitoneDivisor(n, c, 1);
  }

  lemma EuclidDivMonotone(a1: nat, a2: nat, c: int)
    requires a1 <= a2 && c > 0
    ensures a1 / c <= a2 / c
  {
    var q1, q2 := a1 / c, a2 / c;
    if q1 > q2 {
      MulLeft(c, q2 + 1, q1);
    }
  }

  /** With a positive cost the buffer size does not decrease as the heap
      grows from 1 to 2047 MB. */
  lemma BufferSizeMonotone(h1: Int32, h2: Int32, m: Int32)
    requires 0 < h1 <= h2 < 2048 && Cost(m) > 0
    ensures BufferSize(h1, m).Success? && BufferSize(h2, m).Success?
    ensures BufferSize(h1, m).value <= BufferSize(h2, m).value
  {
    AvailableNoWrap(h1);
    AvailableNoWrap(h2);
    var c := Cost(m);
    JavaDivMonotone(Available(h1), Available(h2), c);
    JavaDivBound(Available(h1), c);
    JavaDivBound(Available(h2), c);
  }

  /** Beyond 2047 MB the product wraps: 4096 MB multiplies out to 0, so the
      available heap is negative and the buffer size falls back to the
      minimum. */
  lemma HeapOverflow()
    ensures Available(4096) == -2097152
    ensures BufferSize(4096, 0) == Success(MIN_BUFFER_SIZE)
  {
    UnsetWordSizeCost();
  }

  /** 2048 MB wraps to a large positive value and gives the maximum. */
  lemma HeapWrapsPositive()
    ensures BufferSize(2048, 0) == Success(MAX_BUFFER_SIZE)
  {
    UnsetWordSizeCost();
  }

  /** With 1024 MB the default cost gives the maximum buffer size (more
      than 4096 MB gives), and a word size of 1000 gives 527384 words. */
  lemma GigabyteHeap()
    ensures BufferSize(1024, 0) == Success(MAX_BUFFER_SIZE)
    ensures BufferSize(1024, 1000) == Success(527384)
  {
    UnsetWordSizeCost();
    assert Cost(1000) == 2032;
  }

  // ---------------------------------------------------------------------
  // The configuration and its builder

  /** A built configuration (Config.java:14-19). */
  datatype Config = Config(
    sourceFile: Path,
    outputFile: Path,
    bufferSize: Int32,
    maxWordSize: Int32,
    delimiter: Option<string>)

  /** Config.ConfigBuilder. The setters write to the fields of the enclosing
      Config instance; that instance is only ever reachable through its
      builder, so its fields are the builder's fields here. */
  class ConfigBuilder {
    var sourceFile: Path
    var outputFile: Option<Path>
    var maxWordSize: Int32
    var delimiter: Option<string>
    var maxHeapSize: Int32

    /** Config.newBuilder(sourceFile, heapSize): the other settings keep
        Java's field defaults, null and 0. */
    constructor (sourceFile: Path, heapSize: Int32)
      ensures this.sourceFile == sourceFile && maxHeapSize == heapSize
      ensures outputFile == None && maxWordSize == 0 && delimiter == None
    {
      this.sourceFile := sourceFile;
      maxHeapSize := heapSize;
      outputFile := None;
      maxWordSize := 0;
      delimiter := None;
    }

    method SetOutputFile(outputFile: Option<Path>) returns (b: ConfigBuilder)
      modifies this
      ensures b == this && this.outputFile == outputFile
      ensures sourceFile == old(sourceFile) && maxWordSize == old(maxWordSize)
      ensures delimiter == old(delimiter) && maxHeapSize == old(maxHeapSize)
    {
      this.outputFile := outputFile;
      b := this;
    }

    method SetMaxWordSize(wordSize: Int32) returns (b: ConfigBuilder)
      modifies this
      ensures b == this && maxWordSize == wordSize
      ensures sourceFile == old(sourceFile) && outputFile == old(outputFile)
      ensures delimiter == old(delimiter) && maxHeapSize == old(maxHeapSize)
    {
      maxWordSize := wordSize;
      b := this;
    }

    method SetWordDelimiter(regex: Option<string>) returns (b: ConfigBuilder)
      modifies this
      ensures b == this && delimiter == regex
      ensures sourceFile == old(sourceFile) && outputFile == old(outputFile)
      ensures maxWordSize == old(maxWordSize) && maxHeapSize == old(maxHeapSize)
    {
      delimiter := regex;
      b := this;
    }

    /** build(): computes the buffer size, substitutes the defaults and
        copies the rest. It reads the builder and changes nothing, so
        building twice gives the same configuration. */
    method Build() returns (r: Result<Config, BuildError>)
      ensures r.Failure? <==> maxHeapSize > 0 && Cost(maxWordSize) == 0
      ensures r.Success? ==>
        && BufferSize(maxHeapSize, maxWordSize) == Success(r.value.bufferSize)
        && r.value.maxWordSize == (if maxWordSize > 0 then maxWordSize else DEFAULT_MAX_WORD_SIZE)
        && r.value.outputFile == (if outputFile.Some? then outputFile.value else DEFAULT_OUTPUT_FILE)
        && r.value.sourceFile == sourceFile
        && r.value.delimiter == delimiter
    {
      var bufferSize: Int32;
      if maxHeapSize > 0 {
        var wordSize := Sub32(Mul32(8, Div32(Add32(Mul32(maxWordSize, 2), 45), 8)), 8);
        if wordSize == 0 {
          return Failure(ArithmeticException);
        }
        var b := Div32(Sub32(Mul32(Mul32(maxHeapSize, 1024), 1024), RESERVED_HEAP_SIZE), wordSize);
        bufferSize := Min(Max(b, MIN_BUFFER_SIZE), MAX_BUFFER_SIZE);
      } else {
        bufferSize := MIN_BUFFER_SIZE;
      }
      var wordSize := if maxWordSize > 0 then maxWordSize else DEFAULT_MAX_WORD_SIZE;
      var output := if outputFile.Some? then outputFile.value else DEFAULT_OUTPUT_FILE;
      r := Success(Config(sourceFile, output, bufferSize, wordSize, delimiter));
    }
  }

  /** The builder scenarios of ConfigBuilderTest, checked against the
      contracts above. */
  method BuilderScenarios(source: Path, output: Path)
  {
    var builder := new ConfigBuilder(source, 0);
    var c := builder.Build();
    assert c == Success(Config(source, DEFAULT_OUTPUT_FILE, MIN_BUFFER_SIZE, DEFAULT_MAX_WORD_SIZE, None));
    var _ := builder.SetMaxWordSize(-1);
    c := builder.Build();
    assert c.Success? && c.value.bufferSize == MIN_BUFFER_SIZE;
    var _ := builder.SetMaxWordSize(1000);
    c := builder.Build();
    assert c.Success? && c.value.bufferSize == MIN_BUFFER_SIZE && c.value.maxWordSize == 1000;

    GigabyteHeap();
    builder := new ConfigBuilder(source, 1024);
    c := builder.Build();
    assert c.Success? && c.value.bufferSize != MIN_BUFFER_SIZE;
    var _ := builder.SetMaxWordSize(1000);
    c := builder.Build();
    assert c.Success? && c.value.bufferSize == 527384;

    builder := new ConfigBuilder(source, 0);
    var _ := builder.SetOutputFile(Some(output));
    c := builder.Build();
    assert c.Success? && c.value.outputFile == output;
    var _ := builder.SetWordDelimiter(Some("\\."));
    c := builder.Build();
    assert c.Success? && c.value.delimiter == Some("\\.") && c.value.outputFile == output;
  }
}
