/** scripts/benchmark_prompt_lookup_matrix.py: the file names of batch checkpoints. */
module CheckpointNames {

  /** `batch_key`. */
  datatype Key = Key(caseId: string, promptTokens: nat, maxTokens: nat, concurrency: nat, batchIdx: nat)

  function Digit(d: nat): char
    requires d < 10
  {
    ('0' as int + d) as char
  }

  function Decimal(n: nat): (s: string)
    ensures |s| > 0
  {
    if n < 10 then [Digit(n)] else Decimal(n / 10) + [Digit(n % 10)]
  }

  /** The file name without its suffix, field by field from the left. */
  function Stem(k: Key): string {
    k.caseId + ("-p" + Decimal(k.promptTokens)) + ("-m" + Decimal(k.maxTokens))
    + ("-b" + Decimal(k.concurrency)) + ("-r" + Decimal(k.batchIdx))
  }

  /** `batch_checkpoint_path`, without the directory. */
  function FileName(k: Key): string {
    Stem(k) + ".json"
  }

  /** `path.with_suffix(".json.tmp")`. */
  function TempName(k: Key): string {
    Stem(k) + ".json.tmp"
  }

  /** The pattern "*.json". */
  predicate IsCheckpointName(name: string) {
    |name| >= 5 && name[|name| - 5..] == ".json"
  }

  lemma FileNameIsCheckpointName(k: Key)
    ensures IsCheckpointName(FileName(k))
  {
  }

  /** A temporary file is never picked up by the loader. */
  lemma TempNameIsNot(k: Key)
    ensures !IsCheckpointName(TempName(k))
  {
    var name := TempName(k);
    assert name[|name| - 5..][4] == 'p';
  }

  lemma {:induction false} DecimalDigits(n: nat, i: nat)
    requires i < |Decimal(n)|
    ensures '0' <= Decimal(n)[i] <= '9'
  {
    if n >= 10 && i < |Decimal(n)| - 1 {
      DecimalDigits(n / 10, i);
    }
  }

  predicate IsDigits(s: string) {
    forall i :: 0 <= i < |s| ==> '0' <= s[i] <= '9'
  }

  /** The number a string of digits stands for. */
  function NumberOf(s: string): nat
    requires IsDigits(s)
  {
    if |s| == 0 then 0 else 10 * NumberOf(s[..|s| - 1]) + (s[|s| - 1] as int - '0' as int)
  }

  /** The decimal form stands for its number and has no leading zero. */
  lemma {:induction false} DecimalValue(n: nat)
    ensures IsDigits(Decimal(n)) && NumberOf(Decimal(n)) == n
    ensures n > 0 ==> Decimal(n)[0] != '0'
  {
    forall i | 0 <= i < |Decimal(n)| ensures '0' <= Decimal(n)[i] <= '9' { DecimalDigits(n, i); }
    var s := Decimal(n);
    if n < 10 {
      assert s[..0] == "" && s == [Digit(n)];
    } else {
      DecimalValue(n / 10);
      assert s[..|s| - 1] == Decimal(n / 10) && s[|s| - 1] == Digit(n % 10);
    }
  }

  /** A number holds no dash, so the dash before it is the last one. */
  lemma LastDash(a: string, c: char, m: nat, i: nat)
    requires c != '-' && |a| < i < |a + (['-', c] + Decimal(m))|
    ensures (a + (['-', c] + Decimal(m)))[i] != '-'
  {
    hide Decimal;
    if i > |a| + 1 { DecimalDigits(m, i - |a| - 2); }
  }

  /** The last field of a name can be read off from the right. */
  lemma LastField(a: string, c: char, m: nat, b: string, n: nat)
    requires c != '-'
    requires a + (['-', c] + Decimal(m)) == b + (['-', c] + Decimal(n))
    ensures a == b && m == n
  {
    hide Decimal;
    var s, t := a + (['-', c] + Decimal(m)), b + (['-', c] + Decimal(n));
    assert s[|a|] == '-' && t[|b|] == '-';
    if |a| < |b| { LastDash(a, c, m, |b|); }
    if |b| < |a| { LastDash(b, c, n, |a|); }
    assert a == s[..|a|] && b == t[..|b|];
    assert s[|a| + 2..] == Decimal(m) && t[|b| + 2..] == Decimal(n);
    DecimalValue(m);
    DecimalValue(n);
  }

  lemma NoSeparatorInNumber(n: nat)
    ensures '/' !in Decimal(n)
  {
    hide Decimal;
    if '/' in Decimal(n) {
      var i :| 0 <= i < |Decimal(n)| && Decimal(n)[i] == '/';
      DecimalDigits(n, i);
      assert false;
    }
  }

  /** What the names look like. */
  lemma NamesLookLikeThis()
    ensures FileName(Key("c", 1, 2, 3, 4)) == "c-p1-m2-b3-r4.json"
    ensures TempName(Key("c", 1, 2, 3, 4)) == "c-p1-m2-b3-r4.json.tmp"
  {
    assert Decimal(1) == "1" && Decimal(2) == "2" && Decimal(3) == "3" && Decimal(4) == "4";
    assert Stem(Key("c", 1, 2, 3, 4)) == "c-p1-m2-b3-r4";
  }

  /** A checkpoint lies in the checkpoint directory itself, the only place the loader looks, exactly when the
      case id holds no path separator. */
  lemma InDirectoryIff(k: Key)
    ensures '/' !in FileName(k) <==> '/' !in k.caseId
  {
    hide Decimal;
    NoSeparatorInNumber(k.promptTokens);
    NoSeparatorInNumber(k.maxTokens);
    NoSeparatorInNumber(k.concurrency);
    NoSeparatorInNumber(k.batchIdx);
  }

  /** Different batches have different checkpoint files, whatever characters the case id holds. */
  lemma FileNameInjective(a: Key, b: Key)
    requires FileName(a) == FileName(b)
    ensures a == b
  {
    hide Decimal;
    var s, t := Stem(a), Stem(b);
    assert s == FileName(a)[..|s|] && t == FileName(b)[..|t|];
    assert |s| == |t|;
    var a3, b3 := a.caseId + ("-p" + Decimal(a.promptTokens)) + ("-m" + Decimal(a.maxTokens)),
                  b.caseId + ("-p" + Decimal(b.promptTokens)) + ("-m" + Decimal(b.maxTokens));
    LastField(a3 + ("-b" + Decimal(a.concurrency)), 'r', a.batchIdx, b3 + ("-b" + Decimal(b.concurrency)), b.batchIdx);
    LastField(a3, 'b', a.concurrency, b3, b.concurrency);
    LastField(a.caseId + ("-p" + Decimal(a.promptTokens)), 'm', a.maxTokens,
              b.caseId + ("-p" + Decimal(b.promptTokens)), b.maxTokens);
    LastField(a.caseId, 'p', a.promptTokens, b.caseId, b.promptTokens);
  }
}
