# Place review system: feedback validation and the tri-state feedback record

This project models the two pieces of the place review system that carry logic.

1. **Review validation.** A review of a place carries two lists of attribute codes: those rated positively and those rated negatively. The codes come from a fixed table of ten attributes, from `AT` Atmosphere to `VA` Value. Before a review is stored, `save` runs two guards in a fixed order. First it refuses a review that rates some code both positively and negatively. Then it refuses a review with fewer than three ratings in all. Otherwise it stores the review. The store is modelled as a class holding the sequence of stored reviews. That sequence grows by exactly the saved review on acceptance and is unchanged on refusal.
2. **The feedback record.** A feedback record has ten named attributes, each rated good (`True`), poor (`False`) or left unrated (`None`). It is queried in three ways. `get_field_names` gives the ten names in order. `get_feedback(flag)` gives the names set to `flag`, in field order. `get_counts` gives the number rated good and the number rated poor.

Modules:

- `Seqs` (`seqs.dfy`): repetition-freeness, the element set of a list, and the bound between the two.
- `Attributes` (`attributes.dfy`): the code table.
- `Feedbacks` (`feedback.dfy`): the feedback record and its three queries.
- `Reviews` (`review.dfy`): the review, the two checks, the verdict of `save`, and the `ReviewStore` class whose `Save` method runs the guards.

The feedback record has no definition to follow. `places/tests.py:3` imports a `Feedback` class from `places/models.py`, but `places/models.py` (all 102 lines) does not define one. The record is therefore modelled from what the tests in `places/tests.py` assert. It is a datatype with one field per attribute. `get_counts` is modelled as the lengths of the two `get_feedback` lists, and its contract states them as the numbers of attributes rated good and rated poor.

The count check follows the code. Its docstring (`places/models.py:61-63`) says it returns the total number of rated attributes. The code counts list entries instead (`len(positive) + len(negative)`). `Reviews.FeedbackCount` states that the two agree exactly when no list repeats a code and no code is in both lists. Otherwise the entry count is larger: a repeated code is counted each time, so a code listed three times passes the check. `Reviews.RepeatedCodeCounted` states this behaviour.

## Model

| member | source | states |
|---|---|---|
| `Attributes.TableWellFormed` | places/models.py:11-23 | the attribute table has ten entries; every code has two letters; no two codes and no two labels are equal |
| `Reviews.FeedbackCount` | places/models.py:60-64 | the rating count is at least the number of distinct codes across both lists, and equals it if and only if neither list repeats a code and no code is in both |
| `Reviews.RepeatedCodeCounted` | places/models.py:60-64 | a code listed three times counts three times, gives one distinct code, and is accepted by `save` |
| `Reviews.CheckUnique` | places/models.py:66-71 | the uniqueness check holds exactly when no code is in both lists |
| `Reviews.SwapInvariant` | places/models.py:60-71 | exchanging the positive and negative lists changes neither check nor the verdict of `save` |
| `Reviews.Validate` | places/models.py:77-83 | `save` refuses with the overlap error exactly when some code is in both lists, whatever the count; it refuses with the too-few error exactly when the lists are disjoint and hold fewer than 3 entries in all; it accepts exactly when they are disjoint and hold at least 3 |
| `Reviews.OverlapWins` | places/models.py:77-78 | if some position of the positive list equals some position of the negative list, the verdict is the overlap error, and it stays the overlap error however many entries are added to either list |
| `Reviews.ThresholdIsThree` | places/models.py:80-81 | with disjoint lists, 2 entries in all are refused as too few and 3 are accepted |
| `Reviews.ReviewStore.Save` | places/models.py:73-83 | the verdict is that of `Validate`; on acceptance the stored sequence gains exactly the review at its end; on refusal it is unchanged; a store holding only valid reviews keeps doing so |
| `Reviews.FromFeedback` | places/models.py:66-81 | code lists built from a feedback record never overlap; the positive list holds the codes of the attributes rated good and the negative list those rated poor; their count is the number of rated attributes; they are accepted exactly when at least 3 attributes are rated |
| `Feedbacks.FieldNames` | places/tests.py:57-79 | `get_field_names` gives ten names, none repeated, and neither `id` nor `review` is among them |
| `Feedbacks.FieldNamesFollowTable` | places/tests.py:19-29 | the ten field names, atmosphere to value, come in the order of the attribute code table; each is that entry's label with a lower-case initial |
| `Feedbacks.Select` | places/tests.py:41-55 | the selection holds exactly the given names whose field is in the wanted state, in their original order, each once |
| `Feedbacks.GetFeedback` | places/tests.py:41-55 | `get_feedback(flag)` holds exactly the field names set to `flag`, in field order, without repetition |
| `Feedbacks.FeedbackPartition` | places/tests.py:41-55 | no name is in both `get_feedback(True)` and `get_feedback(False)`; a name in neither is unrated |
| `Feedbacks.SelectPartition` | places/tests.py:108-122 | the good, poor and unrated selections together have as many entries as there are names |
| `Feedbacks.GetCounts` | places/tests.py:81-122 | `get_counts` is the number of attributes rated good and the number rated poor; together with the unrated ones they add up to the number of fields |
| `Feedbacks.DefaultIsEmpty` | places/tests.py:33-39 | a record with nothing rated gives empty lists for both flags, and counts (0, 0) |
| `Feedbacks.OneGoodOnePoor` | places/tests.py:41-55 | with atmosphere good and cleanliness poor, `get_feedback(True)` is `["atmosphere"]` and `get_feedback(False)` is `["cleanliness"]` |
| `Feedbacks.CountsWhenAllRated` | places/tests.py:108-122 | when every attribute is rated, the two counts add up to ten |
| `Feedbacks.CountsAllSame` | places/tests.py:88-106 | all ten good gives counts (10, 0); all ten poor gives (0, 10) |
| `Feedbacks.CountsAlternating` | places/tests.py:108-122 | alternating good and poor over the ten fields gives counts that add up to ten |

## Left out

- Scorecard aggregation. `Scorecard.update_record_with_newest_review` (places/models.py:97-102) only filters reviews by user and prints the first one. No code selects the latest review per reviewer or computes percentages, so none is modelled.
- Database persistence. The ORM save, the array and JSON column types, and the column-level `unique=True` constraint on the two lists (places/models.py:44-55) are database behaviour. The store is a sequence of reviews. `Reviews.ReviewStore.Save` always appends. The framework's save of a review that already has a primary key (places/models.py:83) updates its row instead, so in the model saving the same valid review twice leaves two entries. The codes in the lists are not checked against the code table, because `save` does not check them either.
- Null lists. The columns allow `None` and have no default (places/models.py:44-55). With a `None` list, `save` raises a `TypeError` in the uniqueness check (places/models.py:71), before the count check. This also happens on every `save` of a review created without its lists. The model's lists are always present, so it has no such failure.
- Error messages. The two validation errors' texts (places/models.py:78, 81) are represented by the two `Rejection` values, not by strings.
- Visit and publication timestamps (places/models.py:41-42) and the `__str__` formatting (places/models.py:32-33, 57-58) concern the clock and presentation.
- The `Place` record's address fields (places/models.py:25-30). A review refers to its place by an opaque identifier, and to its reviewer by an identifier that is cleared when the account is deleted.
- Views, URL routing and admin registration (places/views.py, places/urls.py, places/admin.py) belong to the web framework.
- The `Feedback` class imported at places/tests.py:3 is defined nowhere in places/models.py. Its queries are modelled from the assertions of its tests, so how it computes them is not captured.
- `Feedbacks.GetFeedback`: that the result lists names in field order and lists none twice is the model's choice. No test in places/tests.py puts two names in one `get_feedback` result, so the tests assert neither property.
