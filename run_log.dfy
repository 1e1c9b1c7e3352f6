// The two log messages of the runner that later tools read back
// (do.py:262 and do.py:327-329).  The root logger's default format puts
// `INFO:root:` in front of every message.
module RunLog {
  import opened Text
  import opened Records

  const InfoPrefix: string := "INFO:root:"

  /** `LoC for <name> is <n>`, written after a successful cloc run. */
  function LocLine(name: string, loc: int): (line: string)
    ensures StartsWith(line, InfoPrefix + "LoC for " + name + " is ")
    ensures IsDigit(line[|line| - 1])
  {
    var head := InfoPrefix + "LoC for " + name + " is ";
    var digits := IntToString(loc);
    assert IsDigit(digits[|digits| - 1]);
    assert (head + digits)[..|head|] == head;
    head + digits
  }

  /** `Running ENRE-<lang> on <name> costs <t>s and <m>MB`, written when ENRE
      finished before the timer; the memory part is left out when the peak is
      -1.  `show` stands for Python's `str()` of a number. */
  function EnreLine(lang: string, name: string, m: Measure, show: real -> string): (line: string)
    ensures StartsWith(line, InfoPrefix + "Running ENRE-" + lang + " on " + name + " costs " + show(m.time) + "s")
    ensures m.memory == -1.0 ==> line[|line| - 1] == 's'
    ensures m.memory != -1.0 ==> line[|line| - 2..] == "MB"
  {
    var head := InfoPrefix + "Running ENRE-" + lang + " on " + name + " costs " + show(m.time) + "s";
    var tail := if m.memory != -1.0 then " and " + show(m.memory) + "MB" else "";
    assert (head + tail)[..|head|] == head;
    head + tail
  }
}
