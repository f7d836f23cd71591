/**
 * BankAccount.py: an account with a hidden id, name and balance, a deposit and a withdraw
 * method that print the new balance, and `__str__`.
 *
 * As written, both methods read `self.balance`, an attribute the class never defines (the
 * field is the name-mangled `__balance`), so each raises AttributeError; and withdraw
 * subtracts before it checks for sufficient funds. `BankAccount` models the class as it
 * behaves; `Deposit` and `Withdraw` are the evidently intended versions, with the
 * properties the class was meant to have proved about them.
 */
module Bank {
  import opened Wrappers
  import opened Text

  /** How a call ends: normally with the line it prints, or with an AttributeError. */
  datatype Outcome = Printed(line: string) | AttributeError(attribute: string)

  /** The balance after a call, and how the call ended. */
  datatype Step = Step(balance: int, outcome: Outcome)

  const Insufficient := "잔액이 부족합니다."

  function Deposited(amount: int, balance: int): string {
    Decimal(amount) + "원이 입금되었습니다. 현재 잔액: " + Decimal(balance) + "원"
  }

  function Withdrawn(amount: int, balance: int): string {
    Decimal(amount) + "원이 출금되었습니다. 현재 잔액: " + Decimal(balance) + "원"
  }

  // ---------------------------------------------------------------- as written

  /** deposit as written: the balance grows, then formatting the message fails. */
  function DepositAsWritten(balance: int, amount: int): (s: Step)
    ensures s.balance - balance == amount
    ensures s.outcome.AttributeError?
  {
    Step(balance + amount, AttributeError("balance"))
  }

  /**
   * withdraw as written: the balance shrinks first; the check then compares the amount
   * with the reduced balance, and the other branch fails on `self.balance`. So the amount is
   * deducted whatever is reported, "insufficient" is reported exactly when the amount is
   * more than half the balance, and every other call raises.
   */
  function WithdrawAsWritten(balance: int, amount: int): (s: Step)
    ensures s.balance + amount == balance
    ensures s.outcome == Printed(Insufficient) <==> 2 * amount > balance
    ensures s.outcome == Printed(Insufficient) || s.outcome == AttributeError("balance")
  {
    var reduced := balance - amount;
    if amount > reduced then Step(reduced, Printed(Insufficient))
    else Step(reduced, AttributeError("balance"))
  }

  /** The script's own deposit(5000) on a balance of 15000 ends in an AttributeError. */
  lemma DepositFails()
    ensures DepositAsWritten(15000, 5000) == Step(20000, AttributeError("balance"))
  {
  }

  /**
   * Withdrawing 10000 from 15000 is reported as insufficient although the funds suffice,
   * and the 10000 is deducted anyway; withdrawing 20000 from 15000 leaves -5000.
   */
  lemma WithdrawMisjudges()
    ensures WithdrawAsWritten(15000, 10000) == Step(5000, Printed(Insufficient))
    ensures WithdrawAsWritten(15000, 20000).balance == -5000
  {
  }

  /** As written, no call of withdraw both succeeds and leaves the funds it should. */
  lemma WithdrawNeverCompletes(balance: int, amount: int)
    ensures WithdrawAsWritten(balance, amount).outcome != Printed(Withdrawn(amount, balance - amount))
  {
    var s := WithdrawAsWritten(balance, amount);
    if s.outcome.Printed? {
      assert s.outcome.line == Insufficient;
      assert Insufficient[0] == '잔';
      NatDigitsHead(amount);
    }
  }

  /** The as-written deposit changes the balance as intended but never reports it. */
  lemma DepositAsWrittenVsIntended(balance: int, amount: int)
    ensures DepositAsWritten(balance, amount).balance == Deposit(balance, amount).balance
    ensures DepositAsWritten(balance, amount).outcome != Deposit(balance, amount).outcome
  {
  }

  /**
   * When the funds suffice, the as-written and the intended withdraw leave the same
   * balance, but only the intended one reports the withdrawal.
   */
  lemma SufficientFundsAgree(balance: int, amount: int)
    requires 0 <= amount <= balance
    ensures WithdrawAsWritten(balance, amount).balance == Withdraw(balance, amount).balance
    ensures Withdraw(balance, amount).outcome == Printed(Withdrawn(amount, balance - amount))
    ensures WithdrawAsWritten(balance, amount).outcome != Withdraw(balance, amount).outcome
  {
    WithdrawNeverCompletes(balance, amount);
  }

  /** `str(n)` starts with a digit or '-', never with a Hangul syllable. */
  lemma NatDigitsHead(n: int)
    ensures Decimal(n)[0] == '-' || IsDigit(Decimal(n)[0])
  {
  }

  // ---------------------------------------------------------------- as intended

  /** deposit as intended: add, then report the new balance. */
  function Deposit(balance: int, amount: int): (s: Step)
    ensures s.balance - balance == amount
    ensures s.outcome == Printed(Deposited(amount, s.balance))
  {
    var b := balance + amount;
    Step(b, Printed(Deposited(amount, b)))
  }

  /** withdraw as intended: refuse when the amount exceeds the balance, else subtract. */
  function Withdraw(balance: int, amount: int): (s: Step)
    ensures amount > balance ==> s == Step(balance, Printed(Insufficient))
    ensures amount <= balance ==>
      s.balance == balance - amount && s.outcome == Printed(Withdrawn(amount, s.balance))
  {
    if amount > balance then Step(balance, Printed(Insufficient))
    else Step(balance - amount, Printed(Withdrawn(amount, balance - amount)))
  }

  /** A withdrawal never takes a non-negative balance below zero. */
  lemma WithdrawNeverOverdraws(balance: int, amount: int)
    requires balance >= 0
    ensures Withdraw(balance, amount).balance >= 0
  {
  }

  /** Withdrawing what was just deposited restores the balance, for any non-negative amount. */
  lemma DepositThenWithdraw(balance: int, amount: int)
    requires balance >= 0 && amount >= 0
    ensures Withdraw(Deposit(balance, amount).balance, amount).balance == balance
  {
  }

  /** The script's run, with the intended methods: 15000, +5000, -3000. */
  lemma ScriptAsIntended()
    ensures Deposit(15000, 5000).balance == 20000
    ensures Withdraw(20000, 3000) == Step(17000, Printed(Withdrawn(3000, 17000)))
  {
  }

  // ---------------------------------------------------------------- __str__

  /** `"{0} , {1} , {2}".format(id, name, balance)`. */
  function Render(id: int, name: string, balance: int): string {
    Decimal(id) + " , " + name + " , " + Decimal(balance)
  }

  /** Where the three fields sit in `a + " , " + name + " , " + b`. */
  lemma Fields(a: string, name: string, b: string)
    ensures var r := a + " , " + name + " , " + b;
      && |r| == |a| + 6 + |name| + |b|
      && r[..|a|] == a
      && r[|a|..|a| + 3 + |name|] == " , " + name
      && r[|a| + 6 + |name|..] == b
  {
    var tail := " , " + name + " , " + b;
    assert a + " , " + name + " , " + b == a + tail;
    assert tail[..3 + |name|] == " , " + name;
    assert tail[6 + |name|..] == b;
  }

  /**
   * The rendered line reads back: the id before the first " , ", the name after it, and
   * the balance at the end.
   */
  lemma RenderReadsBack(id: int, name: string, balance: int)
    ensures |Render(id, name, balance)| == |Decimal(id)| + 6 + |name| + |Decimal(balance)|
    ensures ParseInt(Render(id, name, balance)[..|Decimal(id)|]) == Some(id)
    ensures Render(id, name, balance)[|Decimal(id)|..|Decimal(id)| + 3 + |name|] == " , " + name
    ensures ParseInt(Render(id, name, balance)[|Decimal(id)| + 6 + |name|..]) == Some(balance)
  {
    Fields(Decimal(id), name, Decimal(balance));
    DecimalRoundTrip(id);
    DecimalRoundTrip(balance);
  }

  // ---------------------------------------------------------------- the class as written

  class BankAccount {
    /** `__id` and `__name` are set by the constructor and never assigned again. */
    const id: int
    const name: string
    var balance: int

    constructor(id: int, name: string, balance: int)
      ensures this.id == id && this.name == name && this.balance == balance
    {
      this.id := id;
      this.name := name;
      this.balance := balance;
    }

    /** deposit: the private balance changes, then the call ends in an AttributeError. */
    method Deposit(amount: int) returns (outcome: Outcome)
      modifies this
      ensures Step(balance, outcome) == DepositAsWritten(old(balance), amount)
    {
      balance := balance + amount;
      outcome := AttributeError("balance");
    }

    /** withdraw: the private balance drops by `amount` whichever branch follows. */
    method Withdraw(amount: int) returns (outcome: Outcome)
      modifies this
      ensures Step(balance, outcome) == WithdrawAsWritten(old(balance), amount)
    {
      balance := balance - amount;
      if amount > balance {
        outcome := Printed(Insufficient);
      } else {
        outcome := AttributeError("balance");
      }
    }

    /** __str__. */
    function ToString(): string
      reads this
    {
      Render(id, name, balance)
    }
  }
}
