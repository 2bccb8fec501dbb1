# UAVCAN parameter server: value model, manager contract and manager binding

This project models the application-facing side of the UAVCAN parameter
service in libuavcan, declared in `libuavcan/include/uavcan/protocol/param_server.hpp`:

- **Value model** (`values.dfy`, module `Values`). A parameter `Value` is a
  record of four independent slots (bool, int, float, string), and a
  `NumericValue` a record of two (int, float). Nothing prevents several slots
  being populated at once, so they are records, not sum types. The bool, int
  and float slots are `Option`s (a dynamic array of capacity one); the string
  slot is the sequence of its characters. `empty()` on a slot is `None` or
  zero length. `IsValueEmpty` / `IsNumericValueEmpty` model the two
  `isValueEmpty` overloads. A float's payload is kept as an opaque 32-bit
  pattern, because only its presence matters here.
- **Parameter manager** (`manager.dfy`, module `Manager`). The `IParamManager`
  interface is modelled over an abstract parameter table: an ordered list of
  unique, non-empty names, which gives the enumeration order, plus a map from name to
  value (`ParamTable`, with `NameAt`, `Lookup` and `Assign`). The class
  `ParamManager` keeps that state in two fields. Its methods follow the
  interface's doc comments. Every reference out-parameter is modelled as an
  input carrying the caller's current value plus a result carrying the new
  value, so "otherwise do nothing" means the input comes back unchanged.
  `ReadParamDefaultMaxMin` is the interface's default body, which reports
  nothing. Save and erase return an `int` status that is negative exactly on
  failure. The lemmas show three things. Assignment never adds, removes or
  reorders parameters. A read after an assignment returns the assigned value.
  Enumerating by index from 0 up to the first index that names nothing lists
  every parameter exactly once.
- **Server binding** (`server.dfy`, module `Server`). `ParamServer` holds a
  nullable, non-owning `manager` reference. The constructor sets it to null.
  `GetParamManager` returns it. `Start` binds the given manager and returns a
  status that is negative exactly when the external handler registration
  failed.

## Model

| member | source | states |
|---|---|---|
| `Values.IsValueEmpty` | libuavcan/include/uavcan/protocol/param_server.hpp:73-79 | a value is empty exactly when it is the value whose bool, int, float and string slots are all empty |
| `Values.IsNumericValueEmpty` | libuavcan/include/uavcan/protocol/param_server.hpp:80-84 | a numeric value is empty exactly when both its int and float slots are empty |
| `Values.PopulatedSlotIsNotEmpty` | libuavcan/include/uavcan/protocol/param_server.hpp:73-79 | any one populated slot (bool, int, float or a non-empty string) makes a value non-empty |
| `Values.PopulatedNumericSlotIsNotEmpty` | libuavcan/include/uavcan/protocol/param_server.hpp:80-84 | any one populated slot makes a numeric value non-empty |
| `Values.SeveralSlotsAreNotEmpty` | libuavcan/include/uavcan/protocol/param_server.hpp:73-84 | values with several slots populated at once are allowed and are not empty |
| `Manager.ExistsIffIndexed` | libuavcan/include/uavcan/protocol/param_server.hpp:29-42 | a parameter can be read by name exactly when some enumeration index names it |
| `Manager.EmptyNameMeansNoParam` | libuavcan/include/uavcan/protocol/param_server.hpp:29-32 | with an empty `out_name` passed in, the name returned is non-empty exactly when the index names a parameter, so an empty result means "not found" |
| `Manager.IndexIsUnique` | libuavcan/include/uavcan/protocol/param_server.hpp:29-32 | no two enumeration indices name the same parameter |
| `Manager.PastTheEndNamesNothing` | libuavcan/include/uavcan/protocol/param_server.hpp:29-32 | an index at or beyond the number of parameters names nothing |
| `Manager.AssignKeepsNames` | libuavcan/include/uavcan/protocol/param_server.hpp:34-37 | assignment keeps the store consistent and never adds, removes or reorders parameters |
| `Manager.AssignUnknownIsNoOp` | libuavcan/include/uavcan/protocol/param_server.hpp:34-37 | assigning to a name that does not exist leaves the stored parameters unchanged |
| `Manager.AssignThenLookup` | libuavcan/include/uavcan/protocol/param_server.hpp:34-42 | after an assignment, reading the name gives the assigned value if it exists and nothing otherwise; other parameters are unaffected |
| `Manager.EnumerationFrom` | libuavcan/include/uavcan/protocol/param_server.hpp:29-32 | asking for successive indices from any position up to the first miss yields the remaining names in order |
| `Manager.EnumerationListsEachParamOnce` | libuavcan/include/uavcan/protocol/param_server.hpp:29-32 | enumerating from index 0 up to the first miss lists every existing parameter exactly once and nothing else |
| `Manager.ParamManager.GetParamNameByIndex` | libuavcan/include/uavcan/protocol/param_server.hpp:29-32 | returns the name at the index when one exists, otherwise returns the caller's `out_name` unchanged |
| `Manager.ParamManager.AssignParamValue` | libuavcan/include/uavcan/protocol/param_server.hpp:34-37 | an existing parameter takes the new value; an unknown name changes nothing; the name list never changes |
| `Manager.ParamManager.ReadParamValue` | libuavcan/include/uavcan/protocol/param_server.hpp:39-42 | returns the stored value of an existing parameter, otherwise the caller's `out_value` unchanged |
| `Manager.ParamManager.ReadParamDefaultMaxMin` | libuavcan/include/uavcan/protocol/param_server.hpp:44-56 | the default body returns `out_default`, `out_max` and `out_min` exactly as passed, so empty inputs stay empty |
| `Manager.ParamManager.SaveAllParams` | libuavcan/include/uavcan/protocol/param_server.hpp:58-62 | the status is negative exactly when saving to non-volatile storage failed |
| `Manager.ParamManager.EraseAllParams` | libuavcan/include/uavcan/protocol/param_server.hpp:64-68 | the status is negative exactly when clearing non-volatile storage failed |
| `Manager.AssignThenRead` | libuavcan/include/uavcan/protocol/param_server.hpp:34-42 | assigning through the manager and reading back gives the assigned value for an existing parameter and the caller's value otherwise |
| `Server.ParamServer.constructor` | libuavcan/include/uavcan/protocol/param_server.hpp:110-114 | a new server's manager reference is null |
| `Server.ParamServer.GetParamManager` | libuavcan/include/uavcan/protocol/param_server.hpp:122 | returns the currently bound manager reference, possibly null |
| `Server.ParamServer.Start` | libuavcan/include/uavcan/protocol/param_server.hpp:116-120 | binds the given manager; the result is negative exactly when handler registration failed |
| `Server.FreshServerHasNoManager` | libuavcan/include/uavcan/protocol/param_server.hpp:110-122 | on a freshly constructed server, `getParamManager` returns null |
| `Server.StartedServerReportsManager` | libuavcan/include/uavcan/protocol/param_server.hpp:116-122 | after `start`, `getParamManager` returns the manager it was started with |

## Left out

- `handleGetSet` and `handleExecuteOpcode`: only declared in this header. Their bodies, which resolve a request by name or index and map opcodes to save/erase, are in a file that is not part of this model.
- Server.ParamServer.Start: its body is in a file that is not part of this model, so two of its contract's clauses are choices of the model, not read from the source: a null manager is accepted, binding null with a non-negative status when registration succeeds; and the manager stays bound after a failed registration.
- Service registration (`ServiceServer`, `INode`, `MethodBinder`): an external transport layer. Its outcome is the `registration` parameter of `Start`, and the constructor takes no node.
- Manager.ParamManager.SaveAllParams, Manager.ParamManager.EraseAllParams: the non-volatile storage is not modelled. The storage outcome is the `storageFails` parameter, and a failure is reported as -1, whereas an implementation may return any negative code.
- Manager.ParamManager.AssignParamValue: the interface lets an application's implementation clamp, coerce or reject a value. The model is one store that keeps the value exactly as given.
- `IParamManager` as an open interface: the model has one implementation class instead of a family of application implementations.
- Integer widths and bounded lengths: the generated DSDL types (`GetSet.hpp`, `ExecuteOpcode.hpp`) are not part of this model. The index, the int slot and the name and string lengths are therefore unbounded (`nat`, `int`, `seq<char>`). Their wire encodings are left out for the same reason.
- Floating-point payloads: kept as opaque bit patterns, with no arithmetic.
- The virtual destructor and pointer ownership: no behaviour to model.
