/** The debounced width alarm. */
module WidthAlarm {

  /** count is a 16-bit counter; alarm is the value shown on the output. */
  datatype Alarm = Alarm(count: int, alarm: int)

  /** A register value stored in a 16-bit unsigned variable. */
  function Word16(register: int): int {
    register % 0x1_0000
  }

  function AlarmStep(a: Alarm, bad: bool, alarmTime: int): Alarm {
    if bad then
      if a.count > 0 then Alarm(a.count - 1, 0) else Alarm(a.count, 1)
    else Alarm(Word16(alarmTime), 0)
  }

  function AlarmAt(a: Alarm, bads: seq<bool>, alarmTime: int, k: nat): Alarm
    requires k <= |bads|
  {
    if k == 0 then a else AlarmStep(AlarmAt(a, bads, alarmTime, k - 1), bads[k - 1], alarmTime)
  }

  /** Length of the unbroken stretch of bad ticks that ends at tick k. */
  function BadStretch(bads: seq<bool>, k: nat): (n: nat)
    requires k <= |bads|
    ensures n <= k
    ensures forall j :: k - n <= j < k ==> bads[j]
    ensures n < k ==> !bads[k - n - 1]
  {
    if k == 0 || !bads[k - 1] then 0 else BadStretch(bads, k - 1) + 1
  }

  lemma {:induction false} AlarmCounts(a: Alarm, bads: seq<bool>, alarmTime: int, k: nat)
    requires k <= |bads|
    requires a.count == Word16(alarmTime)
    ensures var n, t := BadStretch(bads, k), Word16(alarmTime);
      && AlarmAt(a, bads, alarmTime, k).count == (if n <= t then t - n else 0)
      && (k > 0 ==> AlarmAt(a, bads, alarmTime, k).alarm == if n > t then 1 else 0)
  {
    if k == 0 {
    } else {
      AlarmCounts(a, bads, alarmTime, k - 1);
    }
  }

  /** With a constant alarm time T the alarm shows on a tick exactly when that tick and the T
      ticks before it were all bad, counting from loop start. */
  lemma AlarmDebounce(a: Alarm, bads: seq<bool>, t: int, k: nat)
    requires 1 <= k <= |bads|
    requires 0 <= t < 0x1_0000
    requires a.count == t
    ensures AlarmAt(a, bads, t, k).alarm == 1 <==> k > t && forall j :: k - 1 - t <= j < k ==> bads[j]
    ensures AlarmAt(a, bads, t, k).alarm in {0, 1}
  {
    AlarmCounts(a, bads, t, k);
    var n := BadStretch(bads, k);
    if n <= t && k > t {
      assert !bads[k - n - 1];
    }
  }
}
