/** The cursor that reads JSON values off a request body, one after the other. */
module Cursor {
  import opened Types
  import opened Json
  import Http

  class JsonCursor {
    const input: string
    var pos: nat

    constructor (input: string)
      ensures this.input == input && Valid() && Rest() == input
    {
      this.input := input;
      pos := 0;
    }

    ghost predicate Valid()
      reads this
    {
      pos <= |input|
    }

    /** What is still to be read. */
    ghost function Rest(): string
      requires Valid()
      reads this
    {
      input[pos..]
    }

    method Ws()
      requires Valid()
      modifies this
      ensures Valid() && Rest() == Http.SkipSpaces(old(Rest()))
    {
      while pos < |input| && Http.IsSpace(input[pos])
        invariant Valid() && Http.SkipSpaces(Rest()) == Http.SkipSpaces(old(Rest()))
      {
        assert Rest()[1..] == input[pos + 1..];
        pos := pos + 1;
      }
    }

    method Take(c: char) returns (taken: bool)
      requires Valid()
      modifies this
      ensures Valid() && taken == Json.Take(old(Rest()), c).Some?
      ensures Rest() == if taken then Json.Take(old(Rest()), c).value else Http.SkipSpaces(old(Rest()))
    {
      Ws();
      if pos >= |input| || input[pos] != c {
        return false;
      }
      pos := pos + 1;
      return true;
    }

    method Done() returns (done: bool)
      requires Valid()
      modifies this
      ensures Valid() && (done <==> Http.SkipSpaces(old(Rest())) == "")
    {
      Ws();
      return pos == |input|;
    }

    /** Leaves `value` unfinished, and the cursor somewhere on the way, when it fails. */
    method StringValue() returns (ok: bool, value: string)
      requires Valid()
      modifies this
      ensures Valid() && ok == ReadString(old(Rest())).Got?
      ensures ok ==> ReadString(old(Rest())) == Got(value, Rest())
    {
      value := "";
      Ws();
      ghost var s := Rest();
      if pos >= |input| || input[pos] != '\"' {
        return false, value;
      }
      pos := pos + 1;
      while pos < |input|
        invariant Valid() && |value| <= MAX_STRING
        invariant ReadChars(s[1..], "") == ReadChars(Rest(), value)
        decreases |input| - pos
      {
        ghost var here := Rest();
        var c := input[pos];
        pos := pos + 1;
        assert Rest() == here[1..];
        if c == '\"' {
          return true, value;
        }
        if IsControl(c) {
          return false, value;
        }
        if c == '\\' {
          if pos >= |input| {
            return false, value;
          }
          var e := input[pos];
          pos := pos + 1;
          assert Rest() == here[2..];
          if e == '\"' || e == '\\' || e == '/' {
            value := value + [e];
          } else if e == 'b' {
            value := value + ['\U{08}'];
          } else if e == 'f' {
            value := value + ['\U{0c}'];
          } else if e == 'n' {
            value := value + ['\n'];
          } else if e == 'r' {
            value := value + ['\r'];
          } else if e == 't' {
            value := value + ['\t'];
          } else {
            return false, value;
          }
        } else {
          value := value + [c];
        }
        if |value| > MAX_STRING {
          return false, value;
        }
      }
      return false, value;
    }

    method SkipDigits()
      requires Valid()
      modifies this
      ensures Valid() && pos == old(pos) + DigitSpan(old(Rest()))
    {
      ghost var digits := Rest();
      while pos < |input| && Http.IsDigit(input[pos])
        invariant old(pos) <= pos <= |input|
        invariant DigitSpan(digits) == pos - old(pos) + DigitSpan(Rest())
      {
        assert Rest()[1..] == input[pos + 1..];
        pos := pos + 1;
      }
    }

    /** The digits behind the sign; with it they may be ten characters. */
    method Decimal(negative: bool) returns (ok: bool, value: int)
      requires Valid()
      modifies this
      ensures Valid() && ok == ReadDigits(negative, old(Rest())).Got?
      ensures ok ==> ReadDigits(negative, old(Rest())) == Got(value, Rest())
    {
      hide StrToL;
      var first := pos;
      ghost var s := Rest();
      SkipDigits();
      var n := pos - first;
      assert s[..n] == input[first..pos] && s[n..] == Rest();
      hide Rest, DigitSpan;
      if n == 0 || 10 < n + (if negative then 1 else 0) {
        return false, 0;
      }
      value := StrToL(negative, input[first..pos]);
      return -LONG_MAX <= value <= LONG_MAX, value;
    }

    method IntegerValue() returns (ok: bool, value: int)
      requires Valid()
      modifies this
      ensures Valid() && ok == ReadInteger(old(Rest())).Got?
      ensures ok ==> ReadInteger(old(Rest())) == Got(value, Rest())
    {
      hide ReadDigits, Http.SkipSpaces;
      Ws();
      var negative := pos < |input| && input[pos] == '-';
      if negative {
        pos := pos + 1;
      }
      ok, value := Decimal(negative);
    }

    method BoolValue() returns (ok: bool, value: bool)
      requires Valid()
      modifies this
      ensures Valid() && ok == ReadBool(old(Rest())).Got?
      ensures ok ==> ReadBool(old(Rest())) == Got(value, Rest())
    {
      Ws();
      if "true" <= input[pos..] {
        pos := pos + 4;
        return true, true;
      }
      if "false" <= input[pos..] {
        pos := pos + 5;
        return true, false;
      }
      return false, false;
    }
  }
}
