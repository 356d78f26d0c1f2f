/**
 * The daily time clock page (src/pages/Dashboard/pontos.tsx): an ordered log of punches,
 * each an "entrada" (check-in) or a "saida" (check-out), the derived "clocked in" flag,
 * the per-day copy of the log in browser storage, and the worked-time total.
 */
module Pontos {
  import opened JsText
  import opened Seqs
  import opened Wrappers
  import opened Clock

  datatype PunchType = Entrada | Saida

  /**
   * One punch. `time` is the "HH:MM" text shown in the list and read by the worked-time
   * total; `timestamp` is epoch milliseconds for a live punch and seconds since midnight
   * for a manual one, and nothing reads it.
   */
  datatype RecordItem = RecordItem(id: int, kind: PunchType, time: string, timestamp: int)

  /** The reading of `new Date()` a live punch uses: `getTime()`, `getHours()`, `getMinutes()`. */
  datatype WallClock = WallClock(epochMs: int, hour: nat, minute: nat)

  predicate ValidWallClock(now: WallClock) { now.hour < 24 && now.minute < 60 }

  /** Outcome of the remote check-in/check-out call; `detail` is the server's error text. */
  datatype RemoteResult = Ok | Failed(detail: Option<string>)

  /** Every punch's time is clock text. */
  predicate AllWellFormed(rs: seq<RecordItem>)
  {
    forall r :: r in rs ==> WellFormedTime(r.time)
  }

  /** The punch `checkIn`/`checkOut` append: the wall clock's hour and minute as text,
      the epoch milliseconds as timestamp. */
  function LiveRecord(id: int, kind: PunchType, now: WallClock): (r: RecordItem)
    ensures r.id == id && r.kind == kind && r.timestamp == now.epochMs
    ensures WellFormedTime(r.time)
    ensures ClockSeconds(r.time) == now.hour * 3600 + now.minute * 60
  {
    ClockTextRoundTrip(NatToString(now.hour), NatToString(now.minute));
    NatToStringRoundTrip(now.hour);
    NatToStringRoundTrip(now.minute);
    RecordItem(id, kind, ClockText(NatToString(now.hour), NatToString(now.minute)), now.epochMs)
  }

  /** The punch `addCustomRecord` appends from the typed hour and minute. */
  function ManualRecord(id: int, kind: PunchType, hour: string, minute: string): (r: RecordItem)
    requires IsDigits(hour) && IsDigits(minute)
    ensures r.id == id && r.kind == kind
    ensures WellFormedTime(r.time)
  {
    ClockTextRoundTrip(hour, minute);
    RecordItem(id, kind, ClockText(hour, minute), DigitsValue(hour) * 3600 + DigitsValue(minute) * 60)
  }

  // ----- derived state -----

  /** "Clocked in": the log is non-empty and its last punch is an entrada. */
  predicate ClockedIn(rs: seq<RecordItem>)
  {
    |rs| > 0 && rs[|rs| - 1].kind == Entrada
  }

  /** The worked seconds `calculateHours` adds up: scanning from the front, an entrada
      immediately followed by a saida is a pair worth (saida - entrada) seconds of the day
      and the scan resumes after the saida; any other punch is passed over. */
  function PairedSeconds(rs: seq<RecordItem>): (total: int)
    requires AllWellFormed(rs)
    ensures (forall x :: x in rs ==> x.kind == Entrada) ==> total == 0
    ensures (forall x :: x in rs ==> x.kind == Saida) ==> total == 0
  {
    if |rs| < 2 then 0
    else if rs[0].kind == Entrada && rs[1].kind == Saida then
      ClockSeconds(rs[1].time) - ClockSeconds(rs[0].time) + PairedSeconds(rs[2..])
    else PairedSeconds(rs[1..])
  }

  /** `deleteRecord`'s `records.filter((r) => r.id !== id)`. */
  function KeepOther(id: int): RecordItem -> bool
  {
    (r: RecordItem) => r.id != id
  }

  function RemoveRecord(rs: seq<RecordItem>, id: int): (r: seq<RecordItem>)
    ensures forall x :: x in r <==> x in rs && x.id != id
  {
    Filter(rs, KeepOther(id))
  }

  /** The storage key of a day's log: `timeclock-${new Date().toDateString()}`. */
  function StoreKey(day: string): (key: string)
    ensures |key| == 10 + |day| && key[..10] == "timeclock-" && key[10..] == day
  {
    "timeclock-" + day
  }

  /** The alert a failed remote call shows: the server's `detail`, or the fallback text. */
  function FailureMessage(detail: Option<string>, fallback: string): (msg: string)
    ensures detail.Some? && detail.value != "" ==> msg == detail.value
    ensures detail.None? || detail.value == "" ==> msg == fallback
  {
    if detail.Some? && detail.value != "" then detail.value else fallback
  }

  // ----- lemmas -----

  /** A manual punch's timestamp is exactly the seconds of the day its time text shows. */
  lemma ManualTimestampMatchesTime(id: int, kind: PunchType, hour: string, minute: string)
    requires IsDigits(hour) && IsDigits(minute)
    ensures ManualRecord(id, kind, hour, minute).timestamp == ClockSeconds(ManualRecord(id, kind, hour, minute).time)
  {
    ClockTextRoundTrip(hour, minute);
  }

  /** Different days are kept under different keys, so saving one day's log never
      overwrites another day's. */
  lemma StoreKeyInjective(a: string, b: string)
    ensures StoreKey(a) == StoreKey(b) ==> a == b
  {
    if StoreKey(a) == StoreKey(b) {
      assert a == StoreKey(a)[10..];
    }
  }

  /** On a real wall clock (hour 0..23, minute 0..59) a live punch's time text is the
      five characters "HH:MM". */
  lemma LiveTimeMatchesClock(id: int, kind: PunchType, now: WallClock)
    requires ValidWallClock(now)
    ensures |LiveRecord(id, kind, now).time| == 5
  {
    ClockOfNumbers(now.hour, now.minute);
  }

  /** Appending one punch changes the worked total only when it closes a session: a saida
      right after a trailing entrada adds (saida - entrada) seconds; anything else adds 0.
      The scan's earlier pairing is never undone by a later punch. */
  lemma {:induction false} PairedAppend(rs: seq<RecordItem>, x: RecordItem)
    requires AllWellFormed(rs) && WellFormedTime(x.time)
    ensures AllWellFormed(rs + [x])
    ensures PairedSeconds(rs + [x]) == PairedSeconds(rs) +
      (if ClockedIn(rs) && x.kind == Saida
       then ClockSeconds(x.time) - ClockSeconds(rs[|rs| - 1].time) else 0)
  {
    AppendWellFormed(rs, x);
    var s := rs + [x];
    if |rs| >= 2 {
      var k := if rs[0].kind == Entrada && rs[1].kind == Saida then 2 else 1;
      assert s[k..] == rs[k..] + [x];
      WellFormedSuffix(rs, k);
      assert ClockedIn(rs[k..]) == ClockedIn(rs) by {
        if |rs| > k {
          assert rs[k..][|rs[k..]| - 1] == rs[|rs| - 1];
        }
      }
      PairedAppend(rs[k..], x);
    } else if |rs| == 1 {
      assert s[2..] == [];
      assert s[1..] == [x];
    }
  }

  /** Every suffix of a well-formed log is well formed. */
  lemma WellFormedSuffix(rs: seq<RecordItem>, k: nat)
    requires AllWellFormed(rs) && k <= |rs|
    ensures AllWellFormed(rs[k..])
  {
    forall r | r in rs[k..] ensures WellFormedTime(r.time) {
      var j :| k <= j < |rs| && rs[j] == r;
    }
  }

  lemma AppendWellFormed(rs: seq<RecordItem>, x: RecordItem)
    requires AllWellFormed(rs) && WellFormedTime(x.time)
    ensures AllWellFormed(rs + [x])
  {
  }

  /** Appending a punch with clock text keeps every time well formed and leaves the log
      clocked in exactly when the punch is an entrada. */
  lemma AppendKeepsInvariant(rs: seq<RecordItem>, x: RecordItem)
    requires AllWellFormed(rs) && WellFormedTime(x.time)
    ensures AllWellFormed(rs + [x])
    ensures ClockedIn(rs + [x]) <==> x.kind == Entrada
  {
    AppendWellFormed(rs, x);
  }

  /** A check-in never changes the worked total: a trailing unmatched entrada counts 0. */
  lemma EntradaAddsNothing(rs: seq<RecordItem>, x: RecordItem)
    requires AllWellFormed(rs) && WellFormedTime(x.time) && x.kind == Entrada
    ensures AllWellFormed(rs + [x]) && PairedSeconds(rs + [x]) == PairedSeconds(rs)
  {
    PairedAppend(rs, x);
  }

  /** Removing a punch keeps the others in their order: removal distributes over any
      split of the log. */
  lemma RemoveRecordConcat(a: seq<RecordItem>, b: seq<RecordItem>, id: int)
    ensures RemoveRecord(a + b, id) == RemoveRecord(a, id) + RemoveRecord(b, id)
  {
    FilterConcat(a, b, KeepOther(id));
  }

  /** Removing an id no punch has leaves the log as it was. */
  lemma RemoveAbsentId(rs: seq<RecordItem>, id: int)
    requires forall r :: r in rs ==> r.id != id
    ensures RemoveRecord(rs, id) == rs
  {
    FilterKeepsAll(rs, KeepOther(id));
  }

  /** Two complete sessions in a row: the total is the sum of the two sessions. */
  lemma TwoSessions(a: RecordItem, b: RecordItem, c: RecordItem, d: RecordItem)
    requires WellFormedTime(a.time) && WellFormedTime(b.time)
    requires WellFormedTime(c.time) && WellFormedTime(d.time)
    requires a.kind == Entrada && b.kind == Saida && c.kind == Entrada && d.kind == Saida
    ensures AllWellFormed([a, b, c, d])
    ensures PairedSeconds([a, b, c, d]) ==
      (ClockSeconds(b.time) - ClockSeconds(a.time)) + (ClockSeconds(d.time) - ClockSeconds(c.time))
  {
    var day := [a, b, c, d];
    assert day[2..] == [c, d];
    assert [c, d][2..] == [];
    assert AllWellFormed([c, d]);
    assert PairedSeconds([c, d]) == ClockSeconds(d.time) - ClockSeconds(c.time) + PairedSeconds([]);
  }

  /** A punch typed in on the hour: hour text `hh` (two digits worth `h`), minute "00",
      counts `h` whole hours of the day. */
  lemma TypedOnTheHour(id: int, kind: PunchType, hh: string, h: nat)
    requires |hh| == 2 && '0' <= hh[0] <= '9' && '0' <= hh[1] <= '9'
    requires (hh[0] as int - '0' as int) * 10 + (hh[1] as int - '0' as int) == h
    ensures WellFormedTime(ManualRecord(id, kind, hh, "00").time)
    ensures ClockSeconds(ManualRecord(id, kind, hh, "00").time) == h * 3600
  {
    TwoDigitsValue(hh);
    TwoDigitsValue("00");
    ManualTimestampMatchesTime(id, kind, hh, "00");
  }

  /** The day in 8 (typed in as in 08:00, out 12:00, in 13:00, out 17:00) totals
      eight hours. */
  lemma WorkdayExample()
    ensures var day := [ManualRecord(1, Entrada, "08", "00"), ManualRecord(2, Saida, "12", "00"),
                        ManualRecord(3, Entrada, "13", "00"), ManualRecord(4, Saida, "17", "00")];
      AllWellFormed(day) && ElapsedText(PairedSeconds(day), 60) == "8h 0m"
  {
    var a, b := ManualRecord(1, Entrada, "08", "00"), ManualRecord(2, Saida, "12", "00");
    var c, d := ManualRecord(3, Entrada, "13", "00"), ManualRecord(4, Saida, "17", "00");
    TypedOnTheHour(1, Entrada, "08", 8);
    TypedOnTheHour(2, Saida, "12", 12);
    TypedOnTheHour(3, Entrada, "13", 13);
    TypedOnTheHour(4, Saida, "17", 17);
    TwoSessions(a, b, c, d);
    EightHoursText();
  }

  lemma EightHoursText()
    ensures ElapsedText(8 * 3600, 60) == "8h 0m"
  {
    assert HoursMinutes(8 * 3600, 60) == (8, 0);
    assert NatToString(8) == "8" && NatToString(0) == "0";
  }

  /** A lone check-in totals nothing and leaves the page clocked in. */
  lemma LoneEntradaExample()
    ensures var lone := [ManualRecord(1, Entrada, "08", "00")];
      AllWellFormed(lone) && ElapsedText(PairedSeconds(lone), 60) == "0h 0m" && ClockedIn(lone)
  {
    var lone := [ManualRecord(1, Entrada, "08", "00")];
    assert AllWellFormed(lone);
    assert PairedSeconds(lone) == 0;
    ZeroHoursText();
  }

  lemma ZeroHoursText()
    ensures ElapsedText(0, 60) == "0h 0m"
  {
    assert HoursMinutes(0, 60) == (0, 0);
    assert NatToString(0) == "0";
  }

  // ----- the page -----

  /** The page's state: the day's log, the "clocked in" flag, the manual-entry dialog, and
      the browser storage the log is saved to (key to log). */
  class TimeClock {
    var records: seq<RecordItem>
    var isClocked: bool
    var showModal: bool
    var inputHour: string
    var inputMinute: string
    var recordType: PunchType
    var store: map<string, seq<RecordItem>>

    ghost predicate StoreWellFormed()
      reads this
    {
      forall k :: k in store ==> AllWellFormed(store[k])
    }

    /** The page invariant: the flag is exactly "last punch is an entrada". */
    ghost predicate Valid()
      reads this
    {
      isClocked == ClockedIn(records) &&
      AllWellFormed(records) && IsDigits(inputHour) && IsDigits(inputMinute) &&
      StoreWellFormed()
    }

    /** Mounting the page on `day`: load that day's saved log when there is one. */
    constructor Mount(saved: map<string, seq<RecordItem>>, day: string)
      requires forall k :: k in saved ==> AllWellFormed(saved[k])
      ensures Valid()
      ensures records == (if StoreKey(day) in saved then saved[StoreKey(day)] else [])
      ensures isClocked == ClockedIn(records)
      ensures store == saved
      ensures !showModal && inputHour == "" && inputMinute == "" && recordType == Entrada
    {
      records := if StoreKey(day) in saved then saved[StoreKey(day)] else [];
      isClocked := false;
      showModal := false;
      inputHour := "";
      inputMinute := "";
      recordType := Entrada;
      store := saved;
      new;
      if StoreKey(day) in saved {
        var parsed := saved[StoreKey(day)];
        isClocked := |parsed| > 0 && parsed[|parsed| - 1].kind == Entrada;
      }
    }

    /** `saveRecords`: overwrite the day's entry with the whole log. */
    method SaveRecords(newRecords: seq<RecordItem>, day: string)
      requires StoreWellFormed() && AllWellFormed(newRecords)
      modifies this`store
      ensures StoreWellFormed()
      ensures store == old(store)[StoreKey(day) := newRecords]
    {
      store := store[StoreKey(day) := newRecords];
    }

    /** The success path shared by `checkIn` and `checkOut`: append the punch, save the
        new log, and set the flag from the punch's type. */
    method AppendPunch(record: RecordItem, day: string)
      requires Valid() && WellFormedTime(record.time)
      modifies this`records, this`isClocked, this`store
      ensures Valid()
      ensures records == old(records) + [record]
      ensures store == old(store)[StoreKey(day) := records]
      ensures isClocked == (record.kind == Entrada)
    {
      var updated := records + [record];
      AppendKeepsInvariant(records, record);
      records := updated;
      SaveRecords(updated, day);
      isClocked := record.kind == Entrada;
    }

    /** `checkIn`: on remote success append a live entrada, save, and set the flag;
        on failure nothing changes. Returns the alert text. */
    method CheckIn(remote: RemoteResult, id: int, now: WallClock, day: string) returns (alert: string)
      requires Valid() && ValidWallClock(now)
      modifies this`records, this`isClocked, this`store
      ensures Valid()
      ensures remote.Ok? ==> records == old(records) + [LiveRecord(id, Entrada, now)] && isClocked
      ensures remote.Ok? ==> store == old(store)[StoreKey(day) := records]
      ensures remote.Ok? ==> alert == "✅ Entrada registrada às " + LiveRecord(id, Entrada, now).time
      ensures remote.Failed? ==> records == old(records) && isClocked == old(isClocked) && store == old(store)
      ensures remote.Failed? ==> alert == FailureMessage(remote.detail, "Erro ao registrar entrada")
    {
      if remote.Failed? {
        alert := FailureMessage(remote.detail, "Erro ao registrar entrada");
        return;
      }
      var record := LiveRecord(id, Entrada, now);
      AppendPunch(record, day);
      alert := "✅ Entrada registrada às " + record.time;
    }

    /** `checkOut`: the same with a saida, clearing the flag. */
    method CheckOut(remote: RemoteResult, id: int, now: WallClock, day: string) returns (alert: string)
      requires Valid() && ValidWallClock(now)
      modifies this`records, this`isClocked, this`store
      ensures Valid()
      ensures remote.Ok? ==> records == old(records) + [LiveRecord(id, Saida, now)] && !isClocked
      ensures remote.Ok? ==> store == old(store)[StoreKey(day) := records]
      ensures remote.Ok? ==> alert == "✅ Saída registrada às " + LiveRecord(id, Saida, now).time
      ensures remote.Failed? ==> records == old(records) && isClocked == old(isClocked) && store == old(store)
      ensures remote.Failed? ==> alert == FailureMessage(remote.detail, "Erro ao registrar saída")
    {
      if remote.Failed? {
        alert := FailureMessage(remote.detail, "Erro ao registrar saída");
        return;
      }
      var record := LiveRecord(id, Saida, now);
      AppendPunch(record, day);
      alert := "✅ Saída registrada às " + record.time;
    }

    /** The "add manually" button: preselect entrada and open the dialog. */
    method OpenManualEntry()
      modifies this`recordType, this`showModal
      ensures recordType == Entrada && showModal
    {
      recordType := Entrada;
      showModal := true;
    }

    /** The dialog's type buttons. */
    method ChooseRecordType(kind: PunchType)
      modifies this`recordType
      ensures recordType == kind
    {
      recordType := kind;
    }

    /** The dialog's hour field. */
    method TypeHour(text: string)
      requires Valid() && IsDigits(text)
      modifies this`inputHour
      ensures Valid() && inputHour == text
    {
      inputHour := text;
    }

    /** The dialog's minute field. */
    method TypeMinute(text: string)
      requires Valid() && IsDigits(text)
      modifies this`inputMinute
      ensures Valid() && inputMinute == text
    {
      inputMinute := text;
    }

    /** The dialog's cancel button. */
    method CloseModal()
      modifies this`showModal
      ensures !showModal
    {
      showModal := false;
    }

    /** `addCustomRecord`: with both fields filled, append a punch of the chosen type at the
        typed time, save, close and clear the dialog and set the flag from the type; with
        either field empty, do nothing. No remote call is made. */
    method AddCustomRecord(id: int, day: string)
      requires Valid()
      modifies this`records, this`isClocked, this`store, this`showModal, this`inputHour, this`inputMinute
      ensures Valid()
      ensures old(inputHour) == "" || old(inputMinute) == "" ==>
        records == old(records) && isClocked == old(isClocked) && store == old(store) &&
        showModal == old(showModal) && inputHour == old(inputHour) && inputMinute == old(inputMinute)
      ensures old(inputHour) != "" && old(inputMinute) != "" ==>
        records == old(records) + [ManualRecord(id, recordType, old(inputHour), old(inputMinute))] &&
        store == old(store)[StoreKey(day) := records] &&
        isClocked == (recordType == Entrada) &&
        !showModal && inputHour == "" && inputMinute == ""
    {
      if inputHour == "" || inputMinute == "" {
        return;
      }
      var record := ManualRecord(id, recordType, inputHour, inputMinute);
      AppendPunch(record, day);
      ClearDialog();
    }

    /** Close the dialog and empty both fields. */
    method ClearDialog()
      requires Valid()
      modifies this`showModal, this`inputHour, this`inputMinute
      ensures Valid()
      ensures !showModal && inputHour == "" && inputMinute == ""
    {
      showModal := false;
      inputHour := "";
      inputMinute := "";
    }

    /** `deleteRecord`: drop every punch with this id, save, and recompute the flag from
        the new last punch (false when the log is empty). */
    method DeleteRecord(id: int, day: string)
      requires Valid()
      modifies this`records, this`isClocked, this`store
      ensures Valid()
      ensures records == RemoveRecord(old(records), id)
      ensures store == old(store)[StoreKey(day) := records]
      ensures isClocked == ClockedIn(records)
      ensures records == [] ==> !isClocked
    {
      var updated := RemoveRecord(records, id);
      records := updated;
      SaveRecords(updated, day);
      if |updated| > 0 {
        var lastRecord := updated[|updated| - 1];
        isClocked := lastRecord.kind == Entrada;
      } else {
        isClocked := false;
      }
    }

    /** `calculateHours`: the worked time of the day's log as "Xh Ym". */
    method CalculateHours() returns (text: string)
      requires Valid()
      ensures text == ElapsedText(PairedSeconds(records), 60)
    {
      var totalSeconds := 0;
      var i := 0;
      while i < |records| - 1
        invariant 0 <= i <= |records|
        invariant totalSeconds + PairedSeconds(records[i..]) == PairedSeconds(records)
      {
        var current, next := records[i], records[i + 1];
        if current.kind == Entrada && next.kind == Saida {
          var currentSeconds := ClockSeconds(current.time);
          var nextSeconds := ClockSeconds(next.time);
          totalSeconds := totalSeconds + (nextSeconds - currentSeconds);
          assert records[i..][2..] == records[i + 2..];
          i := i + 1;
        } else {
          assert records[i..][1..] == records[i + 1..];
        }
        i := i + 1;
      }
      var hours := FloorDiv(totalSeconds, 3600);
      var minutes := FloorDiv(JsRem(totalSeconds, 3600), 60);
      text := IntToString(hours) + "h " + IntToString(minutes) + "m";
    }
  }
}
