/** What the annotations and the configuration say, told without the functions that read them. */
module Settings {
  import opened Text
  import opened Lifecycle

  /** The text is this name in small letters, up to case; a dotted capital I and the Kelvin sign count as i and k. */
  predicate SpelledLow(text: string, name: string) {
    && |text| == |name|
    && forall i :: 0 <= i < |text| ==>
         || text[i] == name[i] || text[i] as int + 32 == name[i] as int
         || (name[i] == 'i' && text[i] == '\U{130}') || (name[i] == 'k' && text[i] == '\U{212A}')
  }

  lemma LowerSpells(text: string, name: string)
    requires forall i :: 0 <= i < |name| ==> 'a' <= name[i] <= 'z'
    ensures ToLower(text) == name <==> SpelledLow(text, name)
  {
    if ToLower(text) == name {
      forall i | 0 <= i < |text| ensures name[i] == Lower(text[i]) {
        assert ToLower(text)[i] == name[i];
      }
    }
  }

  /** The annotation wins over the configuration unless it is empty; a floating IP is wanted unless the two say
      something else than nothing, "external" or "both". */
  lemma WhenFipIsWanted(c: Ctx, anns: Annotations)
    ensures var text := if IpTypeKey in anns && anns[IpTypeKey] != "" then anns[IpTypeKey] else c.cfg.ipType;
            && (FipEnabled(c, anns) <==> text == "" || SpelledLow(text, "external") || SpelledLow(text, "both"))
            && (IpType(c, anns) == "internal" <==> SpelledLow(text, "internal"))
            && (IpType(c, anns) == "both" <==> SpelledLow(text, "both"))
  {
    var text := if Ann(anns, IpTypeKey) != "" then Ann(anns, IpTypeKey) else c.cfg.ipType;
    LowerSpells(text, "external");
    LowerSpells(text, "both");
    LowerSpells(text, "internal");
    assert ToLower(text) == "" <==> text == "";
  }

  /** The count of creations is the number the annotation carries, and 0 if it carries none. */
  lemma WhatCounts(anns: Annotations, n: int)
    ensures CountKey in anns && anns[CountKey] == Itoa(n) && MIN_INT64 <= n <= MAX_INT64 ==> Count(anns) == n
    ensures CountKey !in anns || Atoi(anns[CountKey]) == None ==> Count(anns) == 0
  {
    if MIN_INT64 <= n <= MAX_INT64 {
      AtoiOfItoa(n);
    }
  }
}
