/**
 * The OTP verification dialog: four one-character slots, a resend countdown
 * driven by a once-a-second tick, the resend guard and the verify guard.
 * Timers are replaced by explicit event methods (`Tick`, `FinishVerification`).
 */
module OtpVerification {
  import opened Seqs
  import opened JsText

  const SlotCount: nat := 4
  const ResendSeconds: int := 30

  /** `otp.join("")`. */
  function Joined(slots: seq<string>): string
    decreases |slots|
  {
    if |slots| == 0 then "" else slots[0] + Joined(slots[1..])
  }

  /** Every slot holds at most one character. */
  predicate SingleChars(slots: seq<string>) {
    forall i :: 0 <= i < |slots| ==> |slots[i]| <= 1
  }

  predicate AllFilled(slots: seq<string>) {
    forall i :: 0 <= i < |slots| ==> slots[i] != ""
  }

  /**
   * With at most one character per slot, the joined code has one character
   * per slot exactly when no slot is empty.
   */
  lemma {:induction false} JoinedFullIffAllFilled(slots: seq<string>)
    requires SingleChars(slots)
    ensures |Joined(slots)| <= |slots|
    ensures |Joined(slots)| == |slots| <==> AllFilled(slots)
    decreases |slots|
  {
    if |slots| != 0 {
      JoinedFullIffAllFilled(slots[1..]);
      if AllFilled(slots[1..]) && slots[0] != "" {
        forall i | 0 <= i < |slots| ensures slots[i] != "" {
          if i > 0 { assert slots[i] == slots[1..][i - 1]; }
        }
      }
      if AllFilled(slots) {
        forall i | 0 <= i < |slots[1..]| ensures slots[1..][i] != "" {
          assert slots[1..][i] == slots[i + 1];
        }
      }
    }
  }

  /** What the input handler passes on: the typed text with every non-digit removed. */
  function KeepDigits(raw: string): (digits: string)
    ensures digits == Filter(raw, (c: char) => IsDigit(c))
    ensures forall i :: 0 <= i < |digits| ==> IsDigit(digits[i])
    decreases |raw|
  {
    if |raw| == 0 then ""
    else if IsDigit(raw[0]) then [raw[0]] + KeepDigits(raw[1..])
    else KeepDigits(raw[1..])
  }

  /** The resend countdown and whether resending is allowed. */
  datatype Countdown = Countdown(seconds: int, canResend: bool)

  /** One second of the interval timer. */
  function TickOnce(c: Countdown): (next: Countdown)
    ensures next.seconds >= 0
    ensures c.seconds > 1 ==> next == Countdown(c.seconds - 1, c.canResend)
    ensures c.seconds <= 1 ==> next == Countdown(0, true)
  {
    if c.seconds <= 1 then Countdown(0, true) else Countdown(c.seconds - 1, c.canResend)
  }

  /** `n` seconds of the interval timer. */
  function Ticks(c: Countdown, n: nat): Countdown
    decreases n
  {
    if n == 0 then c else Ticks(TickOnce(c), n - 1)
  }

  /**
   * From a fresh countdown of `s >= 1` seconds, resending stays locked for
   * the first `s - 1` ticks and the countdown reads `s - n`; the `s`-th tick
   * unlocks it at 0.
   */
  lemma {:induction false} CountdownUnlocksAfter(s: int, n: nat)
    requires s >= 1 && n <= s
    ensures n < s ==> Ticks(Countdown(s, false), n) == Countdown(s - n, false)
    ensures n == s ==> Ticks(Countdown(s, false), n) == Countdown(0, true)
    decreases n
  {
    if n > 0 {
      if s == 1 {
        assert Ticks(Countdown(1, false), 1) == Ticks(Countdown(0, true), 0);
      } else {
        assert TickOnce(Countdown(s, false)) == Countdown(s - 1, false);
        CountdownUnlocksAfter(s - 1, n - 1);
      }
    }
  }

  /** Once unlocked, further ticks keep the countdown at 0 and resending allowed. */
  lemma {:induction false} UnlockedStaysUnlocked(n: nat)
    ensures Ticks(Countdown(0, true), n) == Countdown(0, true)
    decreases n
  {
    if n > 0 {
      UnlockedStaysUnlocked(n - 1);
    }
  }

  /** A fresh 30-second countdown unlocks resending on the 30th tick and not before. */
  lemma ResendUnlocksAtThirty(n: nat)
    ensures Ticks(Countdown(ResendSeconds, false), n).canResend <==> n >= ResendSeconds
  {
    if n <= ResendSeconds {
      CountdownUnlocksAfter(ResendSeconds, n);
    } else {
      TicksAdd(Countdown(ResendSeconds, false), ResendSeconds, n - ResendSeconds);
      CountdownUnlocksAfter(ResendSeconds, ResendSeconds);
      UnlockedStaysUnlocked(n - ResendSeconds);
    }
  }

  lemma {:induction false} TicksAdd(c: Countdown, m: nat, n: nat)
    ensures Ticks(c, m + n) == Ticks(Ticks(c, m), n)
    decreases m
  {
    if m > 0 {
      TicksAdd(TickOnce(c), m - 1, n);
    }
  }

  class Dialog {
    var otp: seq<string>
    var resendCountdown: int
    var canResend: bool
    var isVerifying: bool

    /**
     * Four slots of at most one character each; the countdown is never
     * negative and reaches 0 exactly when resending is allowed.
     */
    ghost predicate Valid()
      reads this
    {
      && |otp| == SlotCount
      && SingleChars(otp)
      && resendCountdown >= 0
      && (canResend <==> resendCountdown == 0)
    }

    function State(): Countdown
      reads this
    {
      Countdown(resendCountdown, canResend)
    }

    constructor()
      ensures Valid()
      ensures otp == ["", "", "", ""] && resendCountdown == ResendSeconds
      ensures !canResend && !isVerifying
    {
      otp := ["", "", "", ""];
      resendCountdown := ResendSeconds;
      canResend := false;
      isVerifying := false;
    }

    /** The effect that runs when the dialog opens: everything back to its start. */
    method Open()
      modifies this
      ensures Valid()
      ensures otp == ["", "", "", ""] && resendCountdown == ResendSeconds
      ensures !canResend && !isVerifying
    {
      otp := ["", "", "", ""];
      resendCountdown := ResendSeconds;
      canResend := false;
      isVerifying := false;
    }

    /** One firing of the one-second interval. */
    method Tick()
      requires Valid()
      modifies this
      ensures Valid()
      ensures State() == TickOnce(old(State()))
      ensures otp == old(otp) && isVerifying == old(isVerifying)
    {
      if resendCountdown <= 1 {
        canResend := true;
        resendCountdown := 0;
      } else {
        resendCountdown := resendCountdown - 1;
      }
    }

    /**
     * `handleOtpChange`: a value longer than one character is ignored;
     * otherwise only slot `index` takes the value.
     */
    method HandleOtpChange(index: nat, value: string)
      requires Valid() && index < SlotCount
      modifies this
      ensures Valid()
      ensures |value| > 1 ==> otp == old(otp)
      ensures |value| <= 1 ==> otp == old(otp)[index := value]
      ensures State() == old(State()) && isVerifying == old(isVerifying)
    {
      if |value| > 1 {
        return;
      }
      var newOtp := otp;
      newOtp := newOtp[index := value];
      otp := newOtp;
    }

    /** Typing into slot `index`: the non-digits are stripped before the change handler runs. */
    method InputChanged(index: nat, raw: string)
      requires Valid() && index < SlotCount
      modifies this
      ensures Valid()
      ensures |KeepDigits(raw)| <= 1 ==> otp == old(otp)[index := KeepDigits(raw)]
      ensures |KeepDigits(raw)| > 1 ==> otp == old(otp)
      ensures forall i :: 0 <= i < SlotCount && i != index ==> otp[i] == old(otp)[i]
      ensures State() == old(State()) && isVerifying == old(isVerifying)
    {
      HandleOtpChange(index, KeepDigits(raw));
    }

    /**
     * `handleResendOTP`: nothing happens while resending is locked; otherwise
     * the countdown restarts at 30, resending locks and every slot is emptied.
     */
    method HandleResend() returns (sent: bool)
      requires Valid()
      modifies this
      ensures Valid()
      ensures sent == old(canResend)
      ensures !sent ==> otp == old(otp) && State() == old(State())
      ensures sent ==> otp == ["", "", "", ""] && State() == Countdown(ResendSeconds, false)
      ensures isVerifying == old(isVerifying)
    {
      if !canResend {
        return false;
      }
      resendCountdown := ResendSeconds;
      canResend := false;
      otp := ["", "", "", ""];
      sent := true;
    }

    /**
     * `handleVerify`: an incomplete code changes nothing (the caller shows an
     * "Invalid OTP" toast); a complete one starts verifying.
     */
    method HandleVerify() returns (started: bool)
      requires Valid()
      modifies this
      ensures Valid()
      ensures started <==> AllFilled(old(otp))
      ensures started ==> isVerifying
      ensures !started ==> isVerifying == old(isVerifying)
      ensures otp == old(otp) && State() == old(State())
    {
      var code := Joined(otp);
      JoinedFullIffAllFilled(otp);
      if |code| != SlotCount {
        return false;
      }
      isVerifying := true;
      started := true;
    }

    /** The simulated verification completes: the flag clears and the dialog reports success. */
    method FinishVerification()
      requires Valid()
      modifies this
      ensures Valid()
      ensures !isVerifying && otp == old(otp) && State() == old(State())
    {
      isVerifying := false;
    }

    /** The Verify button is disabled while the code is incomplete or a verification runs. */
    function VerifyDisabled(): (disabled: bool)
      reads this
      requires Valid()
      ensures disabled <==> !AllFilled(otp) || isVerifying
    {
      JoinedFullIffAllFilled(otp);
      |Joined(otp)| != SlotCount || isVerifying
    }
  }

  /** A resend right after the dialog opens is refused, and 30 ticks later it is accepted. */
  method ResendAfterThirtyTicks(d: Dialog) returns (early: bool, late: bool)
    requires d.Valid()
    modifies d
    ensures !early && late
    ensures d.Valid() && d.otp == ["", "", "", ""]
  {
    d.Open();
    early := d.HandleResend();
    var n := 0;
    while n < ResendSeconds
      invariant 0 <= n <= ResendSeconds && d.Valid()
      invariant d.State() == Ticks(Countdown(ResendSeconds, false), n)
      invariant d.otp == ["", "", "", ""]
    {
      TicksAdd(Countdown(ResendSeconds, false), n, 1);
      d.Tick();
      n := n + 1;
    }
    ResendUnlocksAtThirty(n);
    late := d.HandleResend();
  }
}
