/** The shared registers, sampled once per control tick. Every register is a plain integer. */
module Registers {

  /** Process variables. */
  datatype ProcVars = ProcVars(
    ki: int, kp: int, kd: int, maxPower: int, minPower: int, powerMan: int,
    powerLimitMax: int, powerLimitMin: int, setRefWidth: int, widthRef: int, pixelMmRatio: int,
    endOfProcess: int, limitIntegral: int, limitSlew: int, buffSize: int,
    enableAlarm: int, alarmMax: int, alarmMin: int, alarmTime: int, automeasure: int,
    autoshutterConfig: int, autoshutterTemp: int, autoshutterTimer: int, trackRefStart: int,
    laserExternal: int, delayLaserOn: int, preheatingEna: int, preheatingTime: int, preheatingPower: int)

  /** Registers of the measuring board. The two halves of the track time are 32-bit words. */
  datatype Board = Board(
    mode: int, digitalIn0: int, endOfTrack: int, startTrack: int,
    timeTrackHigh: nat, timeTrackLow: nat, referenceTrack: int)

  /** The image moments in the frame metadata. */
  datatype Metadata = Metadata(m00: int, m10: int, m01: int, m11: int, m20: int, m02: int)

  /** shutterRequest: someone set the automatic-shutter register since the previous tick. */
  datatype Inputs = Inputs(v: ProcVars, mb: Board, meta: Metadata, temperature: int, shutterRequest: bool)
}
