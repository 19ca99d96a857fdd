/** Values shared by every part of the control plane. */
module Types {

  datatype Option<+T> = None | Some(value: T)

  type Duration = ms: int | 0 < ms witness 1

  /** The limits and durations of `NativeConfig`; all times are milliseconds. */
  datatype Config = Config(
    maxRequestLine: nat,
    maxHeaders: nat,
    maxBody: nat,
    maxClients: nat,
    idleTimeoutMs: nat,
    maxDelayMs: nat,
    dedupeRetentionMs: Duration,
    autofocusLeadMs: nat,
    immediateAutofocusLeadMs: nat,
    webShutterHoldMs: Duration,
    physicalShutterFailsafeMs: Duration,
    cooldownMs: Duration)

  /** The only configuration the program builds. */
  const NATIVE_CONFIG := Config(2048, 8192, 4096, 4, 5000, 10000, 60000, 1000, 500, 400, 800, 3000)

  /** The program's error texts, and the texts the camera reports. */
  datatype Notice =
    | Silent | QueueFull | RemoteBusy | DelayOutOfRange | NotCancellable | FocusInactive
    | CameraNotReady | CameraBusy | CaptureFailed | AutofocusFailed | ReleaseFailed
    | Reported(text: string)

  /** Who asked for the latest capture. */
  datatype Origin = Nobody | Physical | Web(requestId: string)

  datatype RemoteState =
    | STOPPED | STARTING | ARMED | FOCUSING | COUNTDOWN | CAPTURING | COOLDOWN | ERROR

  /** The commands a state machine sends to the camera. */
  datatype Command = StartAutofocus | CancelAutofocus | Capture | ReleaseShutter

  /** One command handed to the sink: its id, the instant it was handed over, and the sink's answer. */
  datatype Order = Order(id: int, kind: Command, at: int, accepted: bool)

  /** An adversarial environment: any monotonic clock and any sink. `At(i)` is the i-th instant the
      machine touches the outside world, by reading the clock or by handing over a command. A run
      touches it finitely often, so a list of gaps describes every clock. The sink accepts exactly the
      ids in `accepts`. */
  datatype World = World(start: nat, gaps: seq<nat>, accepts: iset<int>)
  {
    function At(i: nat): nat {
      if i == 0 then start else At(i - 1) + if i < |gaps| then gaps[i] else 0
    }

    predicate Accepts(id: int) {
      id in accepts
    }

    lemma {:induction false} Monotone(i: nat, j: nat)
      requires i <= j
      ensures At(i) <= At(j)
      decreases j
    {
      if i < j {
        Monotone(i, j - 1);
      }
    }
  }
}
