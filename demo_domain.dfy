/** The `Demo` entity: a generated id, a title and a level. */
module DemoDomain {
  import opened Wrappers
  import opened JavaLang
  import opened Store

  /** The columns of a `Demo` besides its id. */
  datatype DemoFields = DemoFields(title: Option<string>, level: Option<Int32>)

  class Demo {
    var id: Option<Int64>
    var title: Option<string>
    var level: Option<Int32>

    /** `new Demo()`: every field null. */
    constructor ()
      ensures id == None && title == None && level == None
    {
      id, title, level := None, None, None;
    }

    /** The entity as a request or response body carries it. */
    function Record(): Entity<DemoFields>
      reads this
    {
      Entity(id, DemoFields(title, level))
    }

    method SetId(id: Option<Int64>)
      modifies this
      ensures this.id == id && title == old(title) && level == old(level)
    {
      this.id := id;
    }

    /** The fluent setter: sets the title and hands back the same object. */
    method Title(title: Option<string>) returns (r: Demo)
      modifies this
      ensures r == this
      ensures this.title == title && id == old(id) && level == old(level)
    {
      this.title := title;
      r := this;
    }

    method SetTitle(title: Option<string>)
      modifies this
      ensures this.title == title && id == old(id) && level == old(level)
    {
      this.title := title;
    }

    /** The fluent setter: sets the level and hands back the same object. */
    method Level(level: Option<Int32>) returns (r: Demo)
      modifies this
      ensures r == this
      ensures this.level == level && id == old(id) && title == old(title)
    {
      this.level := level;
      r := this;
    }

    method SetLevel(level: Option<Int32>)
      modifies this
      ensures this.level == level && id == old(id) && title == old(title)
    {
      this.level := level;
    }

    /**
     * `equals`: the same reference is equal; null and objects of another
     * class are not; otherwise both ids must be non-null and the same.
     */
    predicate Equals(o: object?)
      reads this, o
    {
      if this == o then true
      else if o == null || !(o is Demo) then false
      else
        var demo := o as Demo;
        if demo.id == None || id == None then false
        else id == demo.id
    }

    /** `hashCode`: `Objects.hashCode(id)`. */
    function HashCode(): Int32
      reads this
    {
      ObjectsHashCode(id)
    }

    /**
     * `toString`: `Demo{id=<id>, title='<title>', level='<level>'}`, with
     * "null" for null fields. The three field texts read back out of it.
     */
    function ToString(): (s: string)
      reads this
      ensures |s| > 8 && s[..8] == "Demo{id=" && s[|s| - 2..] == "'}"
      ensures ToStringFields(s) == Some((ShowLong(id), ShowString(title), ShowInteger(level)))
      ensures ParseNullableLong(ToStringFields(s).value.0) == Some(id)
    {
      ShowLongHasNoComma(id);
      ShowIntegerHasNoQuote(level);
      ReadThreeFieldsOf("Demo{id=", ShowLong(id), ", title='", ShowString(title), "', level='", ShowInteger(level), "'}");
      ParseShowLong(id);
      "Demo{id=" + ShowLong(id) + ", title='" + ShowString(title) + "', level='" + ShowInteger(level) + "'}"
    }
  }

  /**
   * Reads the id, title and level texts back out of a `toString` result: the
   * id runs to the first comma, the level is the quote-free text before the
   * closing `'}`, and the title is everything in between.
   */
  function ToStringFields(s: string): Option<(string, string, string)> {
    ReadThreeFields(s, "Demo{id=", ", title='", "', level='", "'}")
  }

  /** Two objects that print the same have the same id and print the same title and level. */
  lemma ToStringDeterminesFields(a: Demo, b: Demo)
    requires a.ToString() == b.ToString()
    ensures a.id == b.id
    ensures ShowString(a.title) == ShowString(b.title) && ShowInteger(a.level) == ShowInteger(b.level)
  {
  }

  lemma EqualsSameReference(d: Demo)
    ensures d.Equals(d)
  {
  }

  lemma EqualsNullOrOtherClass(d: Demo, o: object?)
    requires o == null || !(o is Demo)
    ensures !d.Equals(o)
  {
  }

  /** Two distinct objects are never equal while either id is null. */
  lemma EqualsNeedsIds(d: Demo, o: Demo)
    requires d != o && (d.id == None || o.id == None)
    ensures !d.Equals(o)
  {
  }

  /** With both ids set, the ids alone decide, whatever the titles and levels. */
  lemma EqualsByIds(d: Demo, o: Demo)
    requires d.id != None && o.id != None
    ensures d.Equals(o) <==> d.id == o.id
  {
  }

  lemma EqualsSymmetric(d: Demo, o: Demo)
    ensures d.Equals(o) <==> o.Equals(d)
  {
  }

  lemma EqualsTransitive(a: Demo, b: Demo, c: Demo)
    requires a.Equals(b) && b.Equals(c)
    ensures a.Equals(c)
  {
  }

  /** Equal objects have equal hash codes. */
  lemma HashCodeAgreesWithEquals(d: Demo, o: object?)
    requires d.Equals(o)
    ensures o is Demo && d.HashCode() == (o as Demo).HashCode()
  {
  }
}
