/** The `Demo1` entity: a generated id and a name. */
module Demo1Domain {
  import opened Wrappers
  import opened JavaLang
  import opened Store

  /** The columns of a `Demo1` besides its id. */
  datatype Demo1Fields = Demo1Fields(name: Option<string>)

  class Demo1 {
    var id: Option<Int64>
    var name: Option<string>

    /** `new Demo1()`: every field null. */
    constructor ()
      ensures id == None && name == None
    {
      id, name := None, None;
    }

    /** The entity as a request or response body carries it. */
    function Record(): Entity<Demo1Fields>
      reads this
    {
      Entity(id, Demo1Fields(name))
    }

    method SetId(id: Option<Int64>)
      modifies this
      ensures this.id == id && name == old(name)
    {
      this.id := id;
    }

    /** The fluent setter: sets the name and hands back the same object. */
    method Name(name: Option<string>) returns (r: Demo1)
      modifies this
      ensures r == this
      ensures this.name == name && id == old(id)
    {
      this.name := name;
      r := this;
    }

    method SetName(name: Option<string>)
      modifies this
      ensures this.name == name && id == old(id)
    {
      this.name := name;
    }

    /**
     * `equals`: the same reference is equal; null and objects of another
     * class are not; otherwise both ids must be non-null and the same.
     */
    predicate Equals(o: object?)
      reads this, o
    {
      if this == o then true
      else if o == null || !(o is Demo1) then false
      else
        var other := o as Demo1;
        if other.id == None || id == None then false
        else id == other.id
    }

    /** `hashCode`: `Objects.hashCode(id)`. */
    function HashCode(): Int32
      reads this
    {
      ObjectsHashCode(id)
    }

    /**
     * `toString`: `Demo1{id=<id>, name='<name>'}`, with "null" for null
     * fields. The id and name texts read back out of it.
     */
    function ToString(): (s: string)
      reads this
      ensures |s| > 9 && s[..9] == "Demo1{id=" && s[|s| - 2..] == "'}"
      ensures ToStringFields(s) == Some((ShowLong(id), ShowString(name)))
      ensures ParseNullableLong(ToStringFields(s).value.0) == Some(id)
    {
      ShowLongHasNoComma(id);
      ReadTwoFieldsOf("Demo1{id=", ShowLong(id), ", name='", ShowString(name), "'}");
      ParseShowLong(id);
      "Demo1{id=" + ShowLong(id) + ", name='" + ShowString(name) + "'}"
    }
  }

  /**
   * Reads the id and name texts back out of a `toString` result: the id runs
   * to the first comma and the name is everything after `, name='` up to the
   * closing `'}`.
   */
  function ToStringFields(s: string): Option<(string, string)> {
    ReadTwoFields(s, "Demo1{id=", ", name='", "'}")
  }

  /** Two objects that print the same have the same id and print the same name. */
  lemma ToStringDeterminesFields(a: Demo1, b: Demo1)
    requires a.ToString() == b.ToString()
    ensures a.id == b.id && ShowString(a.name) == ShowString(b.name)
  {
  }

  lemma EqualsSameReference(d: Demo1)
    ensures d.Equals(d)
  {
  }

  lemma EqualsNullOrOtherClass(d: Demo1, o: object?)
    requires o == null || !(o is Demo1)
    ensures !d.Equals(o)
  {
  }

  /** Two distinct objects are never equal while either id is null. */
  lemma EqualsNeedsIds(d: Demo1, o: Demo1)
    requires d != o && (d.id == None || o.id == None)
    ensures !d.Equals(o)
  {
  }

  /** With both ids set, the ids alone decide, whatever the names. */
  lemma EqualsByIds(d: Demo1, o: Demo1)
    requires d.id != None && o.id != None
    ensures d.Equals(o) <==> d.id == o.id
  {
  }

  lemma EqualsSymmetric(d: Demo1, o: Demo1)
    ensures d.Equals(o) <==> o.Equals(d)
  {
  }

  lemma EqualsTransitive(a: Demo1, b: Demo1, c: Demo1)
    requires a.Equals(b) && b.Equals(c)
    ensures a.Equals(c)
  {
  }

  /** Equal objects have equal hash codes. */
  lemma HashCodeAgreesWithEquals(d: Demo1, o: object?)
    requires d.Equals(o)
    ensures o is Demo1 && d.HashCode() == (o as Demo1).HashCode()
  {
  }
}
