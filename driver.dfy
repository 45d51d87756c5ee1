/**
 * The GFC1602AI driver: eleven output pins (register select, read/write,
 * enable and the eight data pins db7..db0), the commands that set them, and
 * the composite string writer. Each command leaves the pins holding one
 * complete bus word; the ghost log records every such word in order.
 */
module Driver {
  import opened Wrappers
  import opened Bits
  import I = Instructions
  import CharTable

  /** One bus word left on the pins by a command: register select, read/write and the data value. */
  datatype BusWrite = BusWrite(rs: bool, rw: bool, word: int)

  const AddressMessage := "Address must be between 0 and 127 (0b1111111)"
  const DataMessage := "Data must be between 0 and 255 (0b11111111)"

  /** A bus write the driver can issue: a write, never a read, of one byte. */
  predicate WellFormed(b: BusWrite)
  {
    !b.rw && 0 <= b.word <= 0xFF
  }

  /** A word written to the instruction register. */
  function Command(word: int): BusWrite
  {
    BusWrite(false, false, word)
  }

  /**
   * The five instructions the string writer always issues first, in this
   * order: clear, address zero, eight-bit function set, display on, and the
   * default entry mode.
   */
  function SetupWrites(twoLineDisplay: bool): seq<BusWrite>
  {
    [Command(I.Encode(I.ClearDisplay)),
     Command(I.Encode(I.SetDdramAddress(0))),
     Command(I.Encode(I.FunctionSet(true, twoLineDisplay, false))),
     Command(I.Encode(I.DisplayControl(true, false, false))),
     Command(I.Encode(I.EntryModeSet(false, false)))]
  }

  /** The words of the setup instructions. */
  lemma SetupWords(twoLineDisplay: bool)
    ensures SetupWrites(twoLineDisplay)
         == [Command(0x01), Command(0x80), Command(if twoLineDisplay then 0x38 else 0x30), Command(0x0C), Command(0x06)]
  {
    I.DefaultWords();
  }

  /** Five single-word steps, in the string writer's order, leave exactly the setup writes after the earlier log. */
  lemma SetupLog(before: seq<BusWrite>, l1: seq<BusWrite>, l2: seq<BusWrite>, l3: seq<BusWrite>,
                 l4: seq<BusWrite>, l5: seq<BusWrite>, twoLineDisplay: bool)
    requires l1 == before + [Command(I.Encode(I.ClearDisplay))]
    requires l2 == l1 + [Command(I.Encode(I.SetDdramAddress(0)))]
    requires l3 == l2 + [Command(I.Encode(I.FunctionSet(true, twoLineDisplay, false)))]
    requires l4 == l3 + [Command(I.Encode(I.DisplayControl(true, false, false)))]
    requires l5 == l4 + [Command(I.Encode(I.EntryModeSet(false, false)))]
    ensures l5 == before + SetupWrites(twoLineDisplay)
  {
  }

  /** One data-register write per code, in order. */
  function DataWrites(codes: seq<int>): seq<BusWrite>
  {
    seq(|codes|, i requires 0 <= i < |codes| => BusWrite(true, false, codes[i]))
  }

  /** Writing one more code extends the data writes, after any earlier log, by exactly that write. */
  lemma DataWritesSnoc(earlier: seq<BusWrite>, codes: seq<int>, k: nat)
    requires k < |codes|
    ensures earlier + DataWrites(codes[..k + 1]) == earlier + DataWrites(codes[..k]) + [BusWrite(true, false, codes[k])]
  {
    var extended := DataWrites(codes[..k]) + [BusWrite(true, false, codes[k])];
    assert |DataWrites(codes[..k + 1])| == |extended|;
    forall i | 0 <= i < k + 1
      ensures DataWrites(codes[..k + 1])[i] == extended[i]
    {
    }
    assert DataWrites(codes[..k + 1]) == extended;
    assert earlier + extended == earlier + DataWrites(codes[..k]) + [BusWrite(true, false, codes[k])];
  }

  /**
   * Writing the one-character string "A" on one line: the five setup words,
   * then a single data write of code 0x41.
   */
  lemma WriteStringA()
    ensures CharTable.TranslateString("A") == Success([0x41])
    ensures SetupWrites(false) + DataWrites(CharTable.TranslateString("A").value)
         == [Command(0x01), Command(0x80), Command(0x30), Command(0x0C), Command(0x06), BusWrite(true, false, 0x41)]
  {
    SetupWords(false);
    var a: string := "A";
    assert [a[0]] == a && a[1..] == [];
    assert CharTable.TranslateChar(a) == Success(0x41);
    assert CharTable.TranslateString(a[1..]) == Success([]);
    assert a != [];
    assert [0x41] + [] == [0x41];
  }

  /** The levels of the eight data pins, db7 first. */
  datatype DataLines = DataLines(db7: bool, db6: bool, db5: bool, db4: bool,
                                 db3: bool, db2: bool, db1: bool, db0: bool)

  /** The value the data pins carry, db7 being the most significant bit. */
  function Value(d: DataLines): (w: nat)
    ensures w < 256
  {
    WordOf(d.db7, d.db6, d.db5, d.db4, d.db3, d.db2, d.db1, d.db0)
  }

  /** Each data pin set to the value masked by its own bit, as the data writer does. */
  function MaskedLines(x: nat): DataLines
  {
    DataLines(Masked(x, 0x80), Masked(x, 0x40), Masked(x, 0x20), Masked(x, 0x10),
              Masked(x, 0x08), Masked(x, 0x04), Masked(x, 0x02), Masked(x, 0x01))
  }

  /** db7 raised and the low seven pins masked from the address, as the address setter does. */
  function AddressLines(x: nat): DataLines
  {
    DataLines(true, Masked(x, 0x40), Masked(x, 0x20), Masked(x, 0x10),
              Masked(x, 0x08), Masked(x, 0x04), Masked(x, 0x02), Masked(x, 0x01))
  }

  /** A byte survives being spread over the data pins and read back. */
  lemma MaskedLinesValue(x: nat)
    requires x < 256
    ensures Value(MaskedLines(x)) == x
  {
    MaskedLinesRoundTrip(x);
  }

  /** Pin levels survive being read as a byte and spread over the pins again. */
  lemma ValueMaskedLines(d: DataLines)
    ensures MaskedLines(Value(d)) == d
  {
    WordOfMasked(d.db7, d.db6, d.db5, d.db4, d.db3, d.db2, d.db1, d.db0);
  }

  /** A seven-bit address spread over the data pins with db7 raised carries the set-address word. */
  lemma AddressLinesValue(x: nat)
    requires x < 128
    ensures Value(AddressLines(x)) == 0x80 + x
    ensures AddressLines(x) == MaskedLines(0x80 + x)
  {
    AddressLinesRoundTrip(x);
    ValueMaskedLines(AddressLines(x));
  }

  class GFC1602AI {
    var rs: bool
    var rw: bool
    var e: bool
    var db: DataLines

    /** Every bus word the commands have left on the pins, oldest first. */
    ghost var log: seq<BusWrite>

    /**
     * Only writes are ever issued, each of one byte, and the pins still hold
     * the last word, with enable high.
     */
    ghost predicate Valid()
      reads this
    {
      && (forall k | 0 <= k < |log| :: WellFormed(log[k]))
      && (log != [] ==>
            e && log[|log| - 1] == BusWrite(rs, rw, Value(db)))
    }

    /** The pins are bound elsewhere; nothing has been written yet. */
    constructor ()
      ensures Valid() && log == []
    {
      log := [];
    }

    /**
     * The assignments every command makes: register select, read/write low,
     * enable high, then the data pins. The word they carry is recorded in
     * the log.
     */
    method SetLines(rsLevel: bool, lines: DataLines)
      requires Valid()
      modifies this
      ensures Valid()
      ensures rs == rsLevel && !rw && e && db == lines
      ensures log == old(log) + [BusWrite(rsLevel, false, Value(lines))]
    {
      rs := rsLevel;
      rw := false;
      e := true;
      db := lines;
      log := log + [BusWrite(rsLevel, false, Value(lines))];
    }

    method ClearDisplay()
      requires Valid()
      modifies this
      ensures Valid()
      ensures !rs && !rw && e && Value(db) == 0x01 == I.Encode(I.ClearDisplay)
      ensures log == old(log) + [Command(I.Encode(I.ClearDisplay))]
    {
      var lines := DataLines(false, false, false, false, false, false, false, true);
      SetLines(false, lines);
    }

    method ReturnHome()
      requires Valid()
      modifies this
      ensures Valid()
      ensures !rs && !rw && e && Value(db) == 0x02 == I.Encode(I.ReturnHome)
      ensures log == old(log) + [Command(I.Encode(I.ReturnHome))]
    {
      var lines := DataLines(false, false, false, false, false, false, true, false);
      SetLines(false, lines);
    }

    method EntryModeSet(decrement: bool := false, displayShift: bool := false)
      requires Valid()
      modifies this
      ensures Valid()
      ensures !rs && !rw && e && Value(db) == I.Encode(I.EntryModeSet(decrement, displayShift))
      ensures log == old(log) + [Command(I.Encode(I.EntryModeSet(decrement, displayShift)))]
    {
      var lines := DataLines(false, false, false, false, false, true, !decrement, displayShift);
      SetLines(false, lines);
    }

    method DisplayControl(displayOn: bool := true, cursorOn: bool := false, blinkOn: bool := false)
      requires Valid()
      modifies this
      ensures Valid()
      ensures !rs && !rw && e && Value(db) == I.Encode(I.DisplayControl(displayOn, cursorOn, blinkOn))
      ensures log == old(log) + [Command(I.Encode(I.DisplayControl(displayOn, cursorOn, blinkOn)))]
    {
      var lines := DataLines(false, false, false, false, true, displayOn, cursorOn, blinkOn);
      SetLines(false, lines);
    }

    method FunctionSet(dataLength8Bits: bool := true, twoLineDisplay: bool := false, font5x10: bool := false)
      requires Valid()
      modifies this
      ensures Valid()
      ensures !rs && !rw && e && Value(db) == I.Encode(I.FunctionSet(dataLength8Bits, twoLineDisplay, font5x10))
      ensures log == old(log) + [Command(I.Encode(I.FunctionSet(dataLength8Bits, twoLineDisplay, font5x10)))]
    {
      var lines := DataLines(false, false, true, dataLength8Bits, twoLineDisplay, font5x10, false, false);
      SetLines(false, lines);
    }

    /** Fails, touching no pin, unless the address fits seven bits. */
    method SetDdramAddress(address: int) returns (r: Outcome<Error>)
      requires Valid()
      modifies this
      ensures Valid()
      ensures r.Fail? <==> address < 0 || address > 0x7F
      ensures r.Fail? ==> r.error == ValueError(AddressMessage) && unchanged(this)
      ensures r.Pass? ==> !rs && !rw && e && db.db7 && Value(db) == I.Encode(I.SetDdramAddress(address))
      ensures log == old(log) + if r.Pass? then [Command(I.Encode(I.SetDdramAddress(address)))] else []
    {
      if address < 0 || address > 0x7F {
        return Fail(ValueError(AddressMessage));
      }
      var lines := AddressLines(address);
      AddressLinesValue(address);
      assert Value(lines) == I.Encode(I.SetDdramAddress(address));
      SetLines(false, lines);
      return Pass;
    }

    /** Fails, touching no pin, unless the value is a byte; each pin then carries its bit of the byte. */
    method WriteData(data: int) returns (r: Outcome<Error>)
      requires Valid()
      modifies this
      ensures Valid()
      ensures r.Fail? <==> data < 0 || data > 0xFF
      ensures r.Fail? ==> r.error == ValueError(DataMessage) && unchanged(this)
      ensures r.Pass? ==> rs && !rw && e && Value(db) == data
      ensures log == old(log) + if r.Pass? then [BusWrite(true, false, data)] else []
    {
      if data < 0 || data > 0xFF {
        return Fail(ValueError(DataMessage));
      }
      MaskedLinesValue(data);
      SetLines(true, MaskedLines(data));
      return Pass;
    }

    /**
     * The five instructions the string writer issues before it looks at its
     * arguments: clear, address zero, function set with the caller's line
     * count, display on, and the default entry mode.
     */
    method SetupDisplay(twoLineDisplay: bool)
      requires Valid()
      modifies this
      ensures Valid()
      ensures log == old(log) + SetupWrites(twoLineDisplay)
    {
      ghost var before := log;
      ClearDisplay();
      ghost var cleared := log;
      var home := SetDdramAddress(0x00);
      ghost var homed := log;
      FunctionSet(twoLineDisplay := twoLineDisplay);
      ghost var functionSet := log;
      DisplayControl(displayOn := true);
      ghost var displayOn := log;
      EntryModeSet();
      SetupLog(before, cleared, homed, functionSet, displayOn, log, twoLineDisplay);
    }

    /**
     * Issues the five setup instructions, then fails for two-line mode;
     * otherwise translates the whole string before writing any of it, and
     * writes every code in order only if every character translated.
     */
    method WriteString(s: string, twoLineDisplay: bool := false) returns (r: Outcome<Error>)
      requires Valid()
      modifies this
      ensures Valid()
      ensures r.Fail? <==> twoLineDisplay || CharTable.TranslateString(s).Failure?
      ensures twoLineDisplay ==> r == Fail(NotImplementedError)
      ensures !twoLineDisplay && CharTable.TranslateString(s).Failure? ==>
        r == Fail(CharTable.TranslateString(s).error)
      ensures log == old(log) + SetupWrites(twoLineDisplay)
        + if r.Pass? then DataWrites(CharTable.TranslateString(s).value) else []
    {
      SetupDisplay(twoLineDisplay);
      if twoLineDisplay {
        return Fail(NotImplementedError);
      }
      var translated := CharTable.TranslateString(s);
      if translated.Failure? {
        return Fail(translated.error);
      }
      var codes := translated.value;
      CharTable.TranslatedCodesAreBytes(s);
      ghost var setupLog := log;
      for k := 0 to |codes|
        invariant Valid()
        invariant log == setupLog + DataWrites(codes[..k])
      {
        DataWritesSnoc(setupLog, codes, k);
        assert 0 <= codes[k] <= 0xFF;
        ghost var prior := log;
        var written := WriteData(codes[k]);
        assert log == prior + [BusWrite(true, false, codes[k])];
      }
      assert codes[..|codes|] == codes;
      return Pass;
    }
  }
}
