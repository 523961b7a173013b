/** include.rs: one `#include` line. */
module Include {
  import opened CRepr

  /** `Include`: a header name and whether it is a system header. */
  datatype Include = Include(name: string, isSystem: bool)

  /** `Include::repr`: `#include <name>` for a system header,
      `#include "name"` otherwise. The context is not consulted. */
  function IncludeText(inc: Include, c: ReprContext): (r: string)
    ensures |r| == |"#include "| + |inc.name| + 2
    ensures r[..|"#include "|] == "#include "
    ensures r[|"#include "| + 1..|r| - 1] == inc.name
    ensures inc.isSystem ==> r[|"#include "|] == '<' && r[|r| - 1] == '>'
    ensures !inc.isSystem ==> r[|"#include "|] == '"' && r[|r| - 1] == '"'
  {
    if inc.isSystem then "#include <" + inc.name + ">"
    else "#include \"" + inc.name + "\""
  }

  /** Rendering does not depend on the context. */
  lemma IncludeIgnoresContext(inc: Include, c1: ReprContext, c2: ReprContext)
    ensures IncludeText(inc, c1) == IncludeText(inc, c2)
  {
  }

  /** The line determines the include: distinct includes render differently. */
  lemma {:induction false} IncludeTextInjective(a: Include, b: Include, c: ReprContext)
    requires IncludeText(a, c) == IncludeText(b, c)
    ensures a == b
  {
    var ra, rb := IncludeText(a, c), IncludeText(b, c);
    assert |a.name| == |b.name|;
    assert a.name == ra[|"#include "| + 1..|ra| - 1];
    assert a.isSystem == (ra[|"#include "|] == '<');
  }
}
