/** When a static access to a class that is not yet initialized may be
    compiled: a conservative reading of class initialization (section 5.5
    of the Java Virtual Machine Specification). */
module Clinit {
  import opened ParseTypes

  /** True exactly when the compiled method is the class initializer, or an
      instance constructor, of the field's holder or of one of its subclasses. */
  function StaticFieldOkInClinit(field: Field, m: MethodInfo,
                                 isSubclassOf: (InstanceKlass, InstanceKlass) -> bool): (ok: bool)
    requires field.isStatic
    ensures ok <==> isSubclassOf(m.holder, field.holder) &&
                    ((m.isStatic && m.name == ClassInitializerName) ||
                     (!m.isStatic && m.name == ObjectInitializerName))
  {
    var accessOk :=
      if isSubclassOf(m.holder, field.holder) then
        if m.isStatic then m.name == ClassInitializerName
        else m.name == ObjectInitializerName
      else false;
    accessOk
  }

  /** A static method named <init>, an instance method named <clinit>, and any
      method of a class unrelated to the holder are all refused. */
  lemma MisnamedOrUnrelatedRefused(field: Field, m: MethodInfo,
                                   isSubclassOf: (InstanceKlass, InstanceKlass) -> bool)
    requires field.isStatic
    requires !isSubclassOf(m.holder, field.holder) ||
             (m.isStatic && m.name == ObjectInitializerName) ||
             (!m.isStatic && m.name == ClassInitializerName)
    ensures !StaticFieldOkInClinit(field, m, isSubclassOf)
  {
    assert ClassInitializerName != ObjectInitializerName by {
      assert ClassInitializerName[1] != ObjectInitializerName[1];
    }
  }
}
